/** The generic two-phase set ("PSet") of crdt/crdt.go and of the browser's
    PSet.js: a live map and a tombstone map from ids to elements, a live
    view that hides tombstoned ids, in-place add (merge on collision) and
    remove (write a tombstone), and a pure merge that unions both maps key
    by key.

    The element type is a parameter. What Go obtains from each element by
    dynamic dispatch (`Identifier()` and `Merge`) is passed in as the total
    functions `key` and `mergeElem`. */
module Crdt {
  import opened Types
  import opened Collections

  datatype PSet<T> = PSet(liveSet: map<Uuid, T>, tombstoneSet: map<Uuid, T>, identifier: string)

  /** Both maps store every element under its own id. */
  ghost predicate Valid<T>(p: PSet<T>, key: T -> Uuid) {
    WellKeyed(p.liveSet, key) && WellKeyed(p.tombstoneSet, key)
  }

  /** Merging the elements two maps share under an id yields an element
      that still carries that id. */
  ghost predicate KeyPreserving<T>(a: map<Uuid, T>, b: map<Uuid, T>, mergeElem: (T, T) -> Result<T>, key: T -> Uuid) {
    forall k | k in a && k in b :: mergeElem(a[k], b[k]).Ok? ==> key(mergeElem(a[k], b[k]).value) == k
  }

  /** An empty set carrying the given set-level identifier. */
  function NewPSet<T>(identifier: string): (p: PSet<T>)
    ensures LiveViewOf(p) == map[] && p.tombstoneSet == map[]
    ensures p.identifier == identifier
  {
    PSet(map[], map[], identifier)
  }

  /** The live map minus every id that has a tombstone. */
  function LiveViewOf<T>(p: PSet<T>): (view: map<Uuid, T>)
    ensures view.Keys == p.liveSet.Keys - p.tombstoneSet.Keys
    ensures forall k | k in view :: view[k] == p.liveSet[k]
  {
    map k | k in p.liveSet && k !in p.tombstoneSet :: p.liveSet[k]
  }

  /** A tombstoned id stays hidden whatever the live map holds for it, so
      adding an element again under a removed id never makes it visible. */
  lemma {:induction false} TombstoneHides<T>(p: PSet<T>, item: T, key: T -> Uuid)
    requires key(item) in p.tombstoneSet
    ensures key(item) !in LiveViewOf(p.(liveSet := p.liveSet[key(item) := item]))
    ensures LiveViewOf(p.(liveSet := p.liveSet[key(item) := item])) == LiveViewOf(p)
  {
    var q := p.(liveSet := p.liveSet[key(item) := item]);
    assert LiveViewOf(q).Keys == LiveViewOf(p).Keys;
  }

  /** Insert `item` under its id, or replace the element already there with
      `existing.Merge(item)`; an element merge error is passed on. */
  function AddToItemMap<T>(itemMap: map<Uuid, T>, item: T, key: T -> Uuid, mergeElem: (T, T) -> Result<T>)
    : (r: Result<map<Uuid, T>>)
    ensures key(item) !in itemMap ==> r == Ok(itemMap[key(item) := item])
    ensures key(item) in itemMap ==>
      (r.Ok? <==> mergeElem(itemMap[key(item)], item).Ok?) &&
      (r.Ok? ==> r.value == itemMap[key(item) := mergeElem(itemMap[key(item)], item).value]) &&
      (r.Err? ==> r.error == mergeElem(itemMap[key(item)], item).error)
    ensures r.Ok? ==> r.value.Keys == itemMap.Keys + {key(item)}
    ensures r.Ok? ==> forall k | k in itemMap && k != key(item) :: r.value[k] == itemMap[k]
    ensures r.Ok? && WellKeyed(itemMap, key) && KeyPreserving(itemMap, map[key(item) := item], mergeElem, key) ==>
            WellKeyed(r.value, key)
  {
    var k := key(item);
    if k !in itemMap then Ok(itemMap[k := item])
    else
      match mergeElem(itemMap[k], item)
      case Err(e) => Err(e)
      case Ok(merged) => Ok(itemMap[k := merged])
  }

  /** Add the elements `other[ks[0]]`, `other[ks[1]]`, ... to `acc`, one
      after the other, stopping at the first element merge error. */
  function MergeInto<T>(acc: map<Uuid, T>, other: map<Uuid, T>, ks: seq<Uuid>, key: T -> Uuid, mergeElem: (T, T) -> Result<T>)
    : (r: Result<map<Uuid, T>>)
    requires forall i | 0 <= i < |ks| :: ks[i] in other
    decreases |ks|
  {
    if ks == [] then Ok(acc)
    else
      match AddToItemMap(acc, other[ks[0]], key, mergeElem)
      case Err(e) => Err(e)
      case Ok(acc') => MergeInto(acc', other, ks[1..], key, mergeElem)
  }

  /** A fresh map holding `mine`, with every element of `other` added to it
      (Go ranges over `other` in an unspecified order; the model takes
      ascending ids). */
  function MergeItemMaps<T>(mine: map<Uuid, T>, other: map<Uuid, T>, key: T -> Uuid, mergeElem: (T, T) -> Result<T>)
    : (r: Result<map<Uuid, T>>)
  {
    MergeInto(mine, other, SortedKeys(other.Keys), key, mergeElem)
  }

  lemma MergeIntoStep<T>(acc: map<Uuid, T>, other: map<Uuid, T>, ks: seq<Uuid>, key: T -> Uuid, mergeElem: (T, T) -> Result<T>)
    requires ks != [] && forall i | 0 <= i < |ks| :: ks[i] in other
    ensures AddToItemMap(acc, other[ks[0]], key, mergeElem).Err? ==>
            MergeInto(acc, other, ks, key, mergeElem) == Err(AddToItemMap(acc, other[ks[0]], key, mergeElem).error)
    ensures AddToItemMap(acc, other[ks[0]], key, mergeElem).Ok? ==>
            MergeInto(acc, other, ks, key, mergeElem) == MergeInto(AddToItemMap(acc, other[ks[0]], key, mergeElem).value, other, ks[1..], key, mergeElem)
  {
  }

  /** With an element merge that never fails, neither does the fold. */
  lemma {:induction false} MergeIntoTotal<T>(acc: map<Uuid, T>, other: map<Uuid, T>, ks: seq<Uuid>, key: T -> Uuid, mergeElem: (T, T) -> Result<T>)
    requires forall i | 0 <= i < |ks| :: ks[i] in other
    requires forall x: T, y: T :: mergeElem(x, y).Ok?
    ensures MergeInto(acc, other, ks, key, mergeElem).Ok?
    decreases |ks|
  {
    if ks != [] {
      MergeIntoStep(acc, other, ks, key, mergeElem);
      var next := AddToItemMap(acc, other[ks[0]], key, mergeElem);
      assert next.Ok?;
      MergeIntoTotal(next.value, other, ks[1..], key, mergeElem);
    }
  }

  /** With an element merge that never fails, two sets merge exactly when
      their identifiers agree. */
  lemma MergeTotal<T>(p: PSet<T>, q: PSet<T>, key: T -> Uuid, mergeElem: (T, T) -> Result<T>)
    requires forall x: T, y: T :: mergeElem(x, y).Ok?
    ensures Merge(p, q, key, mergeElem).Ok? <==> p.identifier == q.identifier
  {
    MergeIntoTotal(p.liveSet, q.liveSet, SortedKeys(q.liveSet.Keys), key, mergeElem);
    MergeIntoTotal(p.tombstoneSet, q.tombstoneSet, SortedKeys(q.tombstoneSet.Keys), key, mergeElem);
  }

  /** The loop of mergeItemMaps: copy `mine`, then add each element of
      `other`, returning the first error. */
  method MergeItemMapsLoop<T>(mine: map<Uuid, T>, other: map<Uuid, T>, key: T -> Uuid, mergeElem: (T, T) -> Result<T>)
    returns (r: Result<map<Uuid, T>>)
    ensures r == MergeItemMaps(mine, other, key, mergeElem)
  {
    var merged := mine;
    var ks := SortedKeys(other.Keys);
    var i := 0;
    while i < |ks|
      invariant 0 <= i <= |ks|
      invariant MergeInto(merged, other, ks[i..], key, mergeElem) == MergeInto(mine, other, ks, key, mergeElem)
    {
      MergeIntoStep(merged, other, ks[i..], key, mergeElem);
      assert ks[i..][0] == ks[i] && ks[i..][1..] == ks[i + 1..];
      var added := AddToItemMap(merged, other[ks[i]], key, mergeElem);
      if added.Err? {
        return Err(added.error);
      }
      merged := added.value;
      i := i + 1;
    }
    assert ks[i..] == [];
    return Ok(merged);
  }

  /** Merge two sets with the same identifier: live maps and tombstone maps
      are merged separately, into fresh maps; the receiver's identifier is
      kept and any element merge error aborts the whole merge. */
  function Merge<T>(p: PSet<T>, other: PSet<T>, key: T -> Uuid, mergeElem: (T, T) -> Result<T>): (r: Result<PSet<T>>)
    ensures p.identifier != other.identifier ==> r == Err(CannotBeMerged)
    ensures r.Ok? ==> r.value.identifier == p.identifier == other.identifier
  {
    if p.identifier != other.identifier then Err(CannotBeMerged)
    else
      match MergeItemMaps(p.liveSet, other.liveSet, key, mergeElem)
      case Err(e) => Err(e)
      case Ok(live) =>
        match MergeItemMaps(p.tombstoneSet, other.tombstoneSet, key, mergeElem)
        case Err(e) => Err(e)
        case Ok(tomb) => Ok(PSet(live, tomb, p.identifier))
  }

  // ---------------------------------------------------------------------
  // What a merge computes, key by key
  // ---------------------------------------------------------------------

  /** Every id present in both maps holds elements that merge. */
  ghost predicate CollisionsMerge<T>(a: map<Uuid, T>, b: map<Uuid, T>, mergeElem: (T, T) -> Result<T>) {
    forall k | k in a && k in b :: mergeElem(a[k], b[k]).Ok?
  }

  /** The key-wise union of two maps, merging the elements of shared ids
      with `a`'s element as receiver. */
  ghost function Pointwise<T>(a: map<Uuid, T>, b: map<Uuid, T>, mergeElem: (T, T) -> Result<T>): map<Uuid, T>
    requires CollisionsMerge(a, b, mergeElem)
  {
    map k | k in a.Keys + b.Keys ::
      if k in a && k in b then mergeElem(a[k], b[k]).value
      else if k in a then a[k]
      else b[k]
  }

  lemma PointwiseKeys<T>(a: map<Uuid, T>, b: map<Uuid, T>, mergeElem: (T, T) -> Result<T>)
    requires CollisionsMerge(a, b, mergeElem)
    ensures Pointwise(a, b, mergeElem).Keys == a.Keys + b.Keys
  {
  }

  lemma PointwiseWellKeyed<T>(a: map<Uuid, T>, b: map<Uuid, T>, key: T -> Uuid, mergeElem: (T, T) -> Result<T>)
    requires WellKeyed(a, key) && WellKeyed(b, key)
    requires CollisionsMerge(a, b, mergeElem) && KeyPreserving(a, b, mergeElem, key)
    ensures WellKeyed(Pointwise(a, b, mergeElem), key)
  {
  }

  ghost function Restrict<T>(m: map<Uuid, T>, ks: set<Uuid>): map<Uuid, T> {
    map k | k in m && k in ks :: m[k]
  }

  /** One step of the fold: adding the element `part[k]` to `acc` and then
      the rest of `part` gives the same union as adding all of `part`. */
  lemma AddStepPointwise<T>(acc: map<Uuid, T>, acc': map<Uuid, T>, k: Uuid, part: map<Uuid, T>, partRest: map<Uuid, T>,
                            key: T -> Uuid, mergeElem: (T, T) -> Result<T>)
    requires k in part && key(part[k]) == k
    requires AddToItemMap(acc, part[k], key, mergeElem) == Ok(acc')
    requires k !in partRest && part.Keys == partRest.Keys + {k}
    requires forall x | x in partRest :: part[x] == partRest[x]
    ensures CollisionsMerge(acc', partRest, mergeElem) <==> CollisionsMerge(acc, part, mergeElem)
    ensures CollisionsMerge(acc, part, mergeElem) ==> Pointwise(acc', partRest, mergeElem) == Pointwise(acc, part, mergeElem)
  {
    assert forall x | x != k :: (x in acc' <==> x in acc) && (x in acc ==> acc'[x] == acc[x]);
    if CollisionsMerge(acc, part, mergeElem) {
      var lhs := Pointwise(acc', partRest, mergeElem);
      var rhs := Pointwise(acc, part, mergeElem);
      assert lhs.Keys == rhs.Keys;
      forall x | x in lhs ensures lhs[x] == rhs[x] {
        if x == k {
          assert x !in partRest;
        }
      }
      assert lhs == rhs;
    }
  }

  /** The ids listed in `ks`. */
  ghost function Elems(ks: seq<Uuid>): set<Uuid> {
    set k | k in ks
  }

  lemma {:induction false} MergeIntoPointwise<T>(acc: map<Uuid, T>, other: map<Uuid, T>, ks: seq<Uuid>,
                                                 key: T -> Uuid, mergeElem: (T, T) -> Result<T>)
    requires WellKeyed(other, key)
    requires forall i | 0 <= i < |ks| :: ks[i] in other
    requires forall i, j | 0 <= i < j < |ks| :: ks[i] != ks[j]
    ensures MergeInto(acc, other, ks, key, mergeElem).Ok? <==>
            CollisionsMerge(acc, Restrict(other, Elems(ks)), mergeElem)
    ensures MergeInto(acc, other, ks, key, mergeElem).Ok? ==>
            MergeInto(acc, other, ks, key, mergeElem).value == Pointwise(acc, Restrict(other, Elems(ks)), mergeElem)
    decreases |ks|
  {
    var part := Restrict(other, Elems(ks));
    if ks == [] {
      assert part == map[];
      assert Pointwise(acc, part, mergeElem) == acc;
    } else {
      var k := ks[0];
      var rest := ks[1..];
      var partRest := Restrict(other, Elems(rest));
      assert k !in rest by {
        forall j | 0 <= j < |rest| ensures rest[j] != k { assert rest[j] == ks[j + 1]; }
      }
      forall j, l | 0 <= j < l < |rest| ensures rest[j] != rest[l] {
        assert rest[j] == ks[j + 1] && rest[l] == ks[l + 1];
      }
      assert Elems(ks) == Elems(rest) + {k} by {
        assert ks == [k] + rest;
      }
      assert part.Keys == partRest.Keys + {k};
      match AddToItemMap(acc, other[k], key, mergeElem)
      case Err(e) => {
        assert k in acc && k in part;
      }
      case Ok(acc') => {
        MergeIntoPointwise(acc', other, rest, key, mergeElem);
        AddStepPointwise(acc, acc', k, part, partRest, key, mergeElem);
      }
    }
  }

  lemma RestrictToAll<T>(b: map<Uuid, T>, ks: seq<Uuid>)
    requires forall k :: k in ks <==> k in b
    ensures Restrict(b, Elems(ks)) == b
  {
    assert Elems(ks) == b.Keys;
  }

  /** mergeItemMaps succeeds exactly when every shared id merges, and then
      yields the key-wise union of the two maps. */
  lemma MergeItemMapsPointwise<T>(a: map<Uuid, T>, b: map<Uuid, T>, key: T -> Uuid, mergeElem: (T, T) -> Result<T>)
    requires WellKeyed(b, key)
    ensures MergeItemMaps(a, b, key, mergeElem).Ok? <==> CollisionsMerge(a, b, mergeElem)
    ensures MergeItemMaps(a, b, key, mergeElem).Ok? ==> MergeItemMaps(a, b, key, mergeElem).value == Pointwise(a, b, mergeElem)
  {
    var ks := SortedKeys(b.Keys);
    SortedKeysAscending(b.Keys);
    RestrictToAll(b, ks);
    MergeIntoPointwise(a, b, ks, key, mergeElem);
  }

  /** A set merge succeeds exactly when the identifiers agree and every
      shared id merges, in the live maps and in the tombstone maps; the
      result's maps are the key-wise unions of the inputs'. */
  lemma MergeContents<T>(p: PSet<T>, q: PSet<T>, key: T -> Uuid, mergeElem: (T, T) -> Result<T>)
    requires Valid(q, key)
    ensures Merge(p, q, key, mergeElem).Ok? <==>
            p.identifier == q.identifier &&
            CollisionsMerge(p.liveSet, q.liveSet, mergeElem) &&
            CollisionsMerge(p.tombstoneSet, q.tombstoneSet, mergeElem)
    ensures Merge(p, q, key, mergeElem).Ok? ==>
            Merge(p, q, key, mergeElem).value ==
            PSet(Pointwise(p.liveSet, q.liveSet, mergeElem), Pointwise(p.tombstoneSet, q.tombstoneSet, mergeElem), p.identifier)
  {
    MergeItemMapsPointwise(p.liveSet, q.liveSet, key, mergeElem);
    MergeItemMapsPointwise(p.tombstoneSet, q.tombstoneSet, key, mergeElem);
  }

  /** After a merge, the live ids and the tombstones are those of both
      inputs, and an id removed on either replica is absent from the merged
      live view. */
  lemma MergeKeys<T>(p: PSet<T>, q: PSet<T>, key: T -> Uuid, mergeElem: (T, T) -> Result<T>)
    requires Valid(q, key)
    requires Merge(p, q, key, mergeElem).Ok?
    ensures Merge(p, q, key, mergeElem).value.liveSet.Keys == p.liveSet.Keys + q.liveSet.Keys
    ensures Merge(p, q, key, mergeElem).value.tombstoneSet.Keys == p.tombstoneSet.Keys + q.tombstoneSet.Keys
    ensures LiveViewOf(Merge(p, q, key, mergeElem).value).Keys ==
            (p.liveSet.Keys + q.liveSet.Keys) - (p.tombstoneSet.Keys + q.tombstoneSet.Keys)
  {
    MergeContents(p, q, key, mergeElem);
    var r := Merge(p, q, key, mergeElem).value;
    PointwiseKeys(p.liveSet, q.liveSet, mergeElem);
    PointwiseKeys(p.tombstoneSet, q.tombstoneSet, mergeElem);
    assert r.liveSet.Keys == p.liveSet.Keys + q.liveSet.Keys;
    assert r.tombstoneSet.Keys == p.tombstoneSet.Keys + q.tombstoneSet.Keys;
  }

  /** Merging keeps every element stored under its own id. */
  lemma MergePreservesValid<T>(p: PSet<T>, q: PSet<T>, key: T -> Uuid, mergeElem: (T, T) -> Result<T>)
    requires Valid(p, key) && Valid(q, key)
    requires KeyPreserving(p.liveSet, q.liveSet, mergeElem, key)
    requires KeyPreserving(p.tombstoneSet, q.tombstoneSet, mergeElem, key)
    requires Merge(p, q, key, mergeElem).Ok?
    ensures Valid(Merge(p, q, key, mergeElem).value, key)
  {
    MergeContents(p, q, key, mergeElem);
    PointwiseWellKeyed(p.liveSet, q.liveSet, key, mergeElem);
    PointwiseWellKeyed(p.tombstoneSet, q.tombstoneSet, key, mergeElem);
  }

  lemma PointwiseSelf<T>(a: map<Uuid, T>, mergeElem: (T, T) -> Result<T>)
    requires forall k | k in a :: mergeElem(a[k], a[k]) == Ok(a[k])
    ensures CollisionsMerge(a, a, mergeElem) && Pointwise(a, a, mergeElem) == a
  {
    var u := Pointwise(a, a, mergeElem);
    assert u.Keys == a.Keys;
  }

  lemma PointwiseSwap<T>(a: map<Uuid, T>, b: map<Uuid, T>, mergeElem: (T, T) -> Result<T>)
    requires forall k | k in a && k in b :: mergeElem(a[k], b[k]) == mergeElem(b[k], a[k])
    ensures CollisionsMerge(a, b, mergeElem) <==> CollisionsMerge(b, a, mergeElem)
    ensures CollisionsMerge(a, b, mergeElem) ==> Pointwise(a, b, mergeElem) == Pointwise(b, a, mergeElem)
  {
    if CollisionsMerge(a, b, mergeElem) {
      var u := Pointwise(a, b, mergeElem);
      var v := Pointwise(b, a, mergeElem);
      assert u.Keys == v.Keys;
    }
  }

  /** If merging every element with itself gives it back, merging a set
      with itself gives the set back. */
  lemma MergeIdempotent<T>(p: PSet<T>, key: T -> Uuid, mergeElem: (T, T) -> Result<T>)
    requires Valid(p, key)
    requires forall k | k in p.liveSet :: mergeElem(p.liveSet[k], p.liveSet[k]) == Ok(p.liveSet[k])
    requires forall k | k in p.tombstoneSet :: mergeElem(p.tombstoneSet[k], p.tombstoneSet[k]) == Ok(p.tombstoneSet[k])
    ensures Merge(p, p, key, mergeElem) == Ok(p)
  {
    PointwiseSelf(p.liveSet, mergeElem);
    PointwiseSelf(p.tombstoneSet, mergeElem);
    MergeContents(p, p, key, mergeElem);
  }

  /** If the elements under each shared id merge the same way in either
      order, merging two sets with the same identifier gives the same
      result in either order. */
  lemma MergeCommutative<T>(p: PSet<T>, q: PSet<T>, key: T -> Uuid, mergeElem: (T, T) -> Result<T>)
    requires Valid(p, key) && Valid(q, key)
    requires p.identifier == q.identifier
    requires forall k | k in p.liveSet && k in q.liveSet ::
               mergeElem(p.liveSet[k], q.liveSet[k]) == mergeElem(q.liveSet[k], p.liveSet[k])
    requires forall k | k in p.tombstoneSet && k in q.tombstoneSet ::
               mergeElem(p.tombstoneSet[k], q.tombstoneSet[k]) == mergeElem(q.tombstoneSet[k], p.tombstoneSet[k])
    ensures Merge(p, q, key, mergeElem).Ok? <==> Merge(q, p, key, mergeElem).Ok?
    ensures Merge(p, q, key, mergeElem).Ok? ==> Merge(p, q, key, mergeElem) == Merge(q, p, key, mergeElem)
  {
    PointwiseSwap(p.liveSet, q.liveSet, mergeElem);
    PointwiseSwap(p.tombstoneSet, q.tombstoneSet, mergeElem);
    MergeContents(p, q, key, mergeElem);
    MergeContents(q, p, key, mergeElem);
  }

  /** Shared ids of three maps merge pairwise, and an id present in all
      three merges to the same element in either grouping. */
  ghost predicate MergesAssociatively<T>(a: map<Uuid, T>, b: map<Uuid, T>, c: map<Uuid, T>, mergeElem: (T, T) -> Result<T>) {
    CollisionsMerge(a, b, mergeElem) && CollisionsMerge(b, c, mergeElem) && CollisionsMerge(a, c, mergeElem) &&
    forall k | k in a && k in b && k in c ::
      mergeElem(mergeElem(a[k], b[k]).value, c[k]).Ok? &&
      mergeElem(mergeElem(a[k], b[k]).value, c[k]) == mergeElem(a[k], mergeElem(b[k], c[k]).value)
  }

  lemma PointwiseAssociative<T>(a: map<Uuid, T>, b: map<Uuid, T>, c: map<Uuid, T>, mergeElem: (T, T) -> Result<T>)
    requires MergesAssociatively(a, b, c, mergeElem)
    ensures CollisionsMerge(Pointwise(a, b, mergeElem), c, mergeElem)
    ensures CollisionsMerge(a, Pointwise(b, c, mergeElem), mergeElem)
    ensures Pointwise(Pointwise(a, b, mergeElem), c, mergeElem) == Pointwise(a, Pointwise(b, c, mergeElem), mergeElem)
  {
    var ab := Pointwise(a, b, mergeElem);
    var bc := Pointwise(b, c, mergeElem);
    var l := Pointwise(ab, c, mergeElem);
    var r := Pointwise(a, bc, mergeElem);
    assert l.Keys == r.Keys;
    forall k | k in l ensures l[k] == r[k] {
    }
  }

  /** If the elements under shared ids merge associatively, merging three
      sets with one identifier gives the same set in either grouping. */
  lemma MergeAssociative<T>(p: PSet<T>, q: PSet<T>, s: PSet<T>, key: T -> Uuid, mergeElem: (T, T) -> Result<T>)
    requires Valid(p, key) && Valid(q, key) && Valid(s, key)
    requires p.identifier == q.identifier == s.identifier
    requires MergesAssociatively(p.liveSet, q.liveSet, s.liveSet, mergeElem)
    requires MergesAssociatively(p.tombstoneSet, q.tombstoneSet, s.tombstoneSet, mergeElem)
    requires KeyPreserving(q.liveSet, s.liveSet, mergeElem, key) && KeyPreserving(q.tombstoneSet, s.tombstoneSet, mergeElem, key)
    ensures Merge(p, q, key, mergeElem).Ok? && Merge(q, s, key, mergeElem).Ok?
    ensures Merge(Merge(p, q, key, mergeElem).value, s, key, mergeElem).Ok?
    ensures Merge(Merge(p, q, key, mergeElem).value, s, key, mergeElem) == Merge(p, Merge(q, s, key, mergeElem).value, key, mergeElem)
  {
    MergeContents(p, q, key, mergeElem);
    MergeContents(q, s, key, mergeElem);
    MergePreservesValid(q, s, key, mergeElem);
    PointwiseAssociative(p.liveSet, q.liveSet, s.liveSet, mergeElem);
    PointwiseAssociative(p.tombstoneSet, q.tombstoneSet, s.tombstoneSet, mergeElem);
    MergeContents(Merge(p, q, key, mergeElem).value, s, key, mergeElem);
    MergeContents(p, Merge(q, s, key, mergeElem).value, key, mergeElem);
  }

  // ---------------------------------------------------------------------
  // The set as a mutable object
  // ---------------------------------------------------------------------

  /** A PSet whose maps are updated in place by `Add` and `Remove`. */
  class PSetReplica<T> {
    var liveSet: map<Uuid, T>
    var tombstoneSet: map<Uuid, T>
    const identifier: string

    /** The current contents as a value. */
    function Value(): PSet<T>
      reads this
    {
      PSet(liveSet, tombstoneSet, identifier)
    }

    /** NewPSet: empty maps and the given identifier. */
    constructor (identifier: string)
      ensures Value() == NewPSet(identifier)
    {
      liveSet := map[];
      tombstoneSet := map[];
      this.identifier := identifier;
    }

    /** Add merges on collision; on an element merge error the live map is
        left as it was and the error is returned. Tombstones are untouched. */
    method Add(item: T, key: T -> Uuid, mergeElem: (T, T) -> Result<T>) returns (err: Outcome)
      modifies this
      ensures tombstoneSet == old(tombstoneSet)
      ensures match AddToItemMap(old(liveSet), item, key, mergeElem)
              case Ok(m) => liveSet == m && err == Pass
              case Err(e) => liveSet == old(liveSet) && err == Fail(e)
      ensures old(Valid(Value(), key)) && KeyPreserving(old(liveSet), map[key(item) := item], mergeElem, key) ==>
              Valid(Value(), key)
    {
      var added := AddToItemMap(liveSet, item, key, mergeElem);
      match added
      case Err(e) =>
        err := Fail(e);
      case Ok(m) =>
        liveSet := m;
        err := Pass;
    }

    /** Remove writes a tombstone for a live id and does nothing otherwise;
        the live map is never changed and no tombstone is ever dropped. */
    method Remove(item: T, key: T -> Uuid)
      modifies this
      ensures liveSet == old(liveSet)
      ensures key(item) in LiveViewOf(old(Value())) ==> tombstoneSet == old(tombstoneSet)[key(item) := item]
      ensures key(item) !in LiveViewOf(old(Value())) ==> tombstoneSet == old(tombstoneSet)
      ensures old(Valid(Value(), key)) ==> Valid(Value(), key)
    {
      var view := LiveView();
      if key(item) !in view {
        return;
      }
      tombstoneSet := tombstoneSet[key(item) := item];
    }

    /** The live view, built by a loop into a fresh map. */
    method LiveView() returns (view: map<Uuid, T>)
      ensures view == LiveViewOf(Value())
    {
      view := map[];
      var remaining := liveSet.Keys;
      while remaining != {}
        invariant remaining <= liveSet.Keys
        invariant view.Keys == (liveSet.Keys - remaining) - tombstoneSet.Keys
        invariant forall k | k in view :: view[k] == liveSet[k]
        decreases remaining
      {
        var k :| k in remaining;
        if k !in tombstoneSet {
          view := view[k := liveSet[k]];
        }
        remaining := remaining - {k};
      }
    }
  }
}
