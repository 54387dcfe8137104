/** Map and sequence helpers shared by both implementations: a fixed
    enumeration order for maps keyed by ids, the map-to-slice and
    slice-to-map conversions used at the serialisation boundary, and the
    sorting and maximum folds used by list reordering. */
module Collections {
  import opened Types

  /** Every key of `m` is the key its own value reports. */
  ghost predicate WellKeyed<T>(m: map<Uuid, T>, key: T -> Uuid) {
    forall k | k in m :: key(m[k]) == k
  }

  /** The conversion that keeps each value as it is. */
  function Identity<T>(x: T): T {
    x
  }

  /** Writing back the value already stored changes nothing. */
  lemma MapUpdateSame<T>(m: map<Uuid, T>, k: Uuid)
    requires k in m
    ensures m[k := m[k]] == m
  {
  }

  /** A second write to a key overrides the first. */
  lemma MapUpdateTwice<T>(m: map<Uuid, T>, k: Uuid, a: T, b: T)
    ensures m[k := a][k := b] == m[k := b]
  {
  }

  // ---------------------------------------------------------------------
  // Enumerating a map in ascending id order
  // ---------------------------------------------------------------------

  /** A least element of a non-empty set of ids, found by removing one
      element and comparing it with the least of the rest. */
  lemma {:induction false} LeastOf(s: set<Uuid>) returns (m: Uuid)
    requires s != {}
    ensures m in s && forall k | k in s :: m <= k
    decreases |s|
  {
    var x :| x in s;
    var rest := s - {x};
    if rest == {} {
      m := x;
      forall k | k in s ensures m <= k {
        assert k !in rest;
      }
    } else {
      var r := LeastOf(rest);
      m := if x <= r then x else r;
      forall k | k in s ensures m <= k {
        if k != x { assert k in rest; }
      }
    }
  }

  /** The least id of a non-empty set. */
  function Least(s: set<Uuid>): (m: Uuid)
    requires s != {}
    ensures m in s && forall k | k in s :: m <= k
  {
    assert exists w :: w in s && forall k | k in s :: w <= k by {
      var w := LeastOf(s);
    }
    var m :| m in s && forall k | k in s :: m <= k;
    m
  }

  /** The ids of `s` in ascending order (see SortedKeysAscending). */
  function SortedKeys(s: set<Uuid>): (ks: seq<Uuid>)
    ensures |ks| == |s|
    ensures forall k :: k in ks <==> k in s
    decreases |s|
  {
    if s == {} then []
    else
      var m := Least(s);
      [m] + SortedKeys(s - {m})
  }

  /** The enumeration is strictly ascending, so it lists each id once. */
  lemma {:induction false} SortedKeysAscending(s: set<Uuid>)
    ensures forall i, j | 0 <= i < j < |SortedKeys(s)| :: SortedKeys(s)[i] < SortedKeys(s)[j]
    decreases |s|
  {
    if s != {} {
      var m := Least(s);
      var rest := SortedKeys(s - {m});
      SortedKeysAscending(s - {m});
      assert SortedKeys(s) == [m] + rest;
      forall i, j | 0 <= i < j < |SortedKeys(s)| ensures SortedKeys(s)[i] < SortedKeys(s)[j] {
        if i == 0 {
          assert SortedKeys(s)[j] == rest[j - 1] && rest[j - 1] in s - {m};
        } else {
          assert SortedKeys(s)[i] == rest[i - 1] && SortedKeys(s)[j] == rest[j - 1];
        }
      }
    }
  }

  /** `f` applied to the values of `m` at the ids `ks`, in that order. */
  function ValuesAt<T, D>(m: map<Uuid, T>, ks: seq<Uuid>, f: T -> D): (s: seq<D>)
    requires forall i | 0 <= i < |ks| :: ks[i] in m
    ensures |s| == |ks|
    ensures forall i | 0 <= i < |ks| :: s[i] == f(m[ks[i]])
  {
    seq(|ks|, i requires 0 <= i < |ks| => f(m[ks[i]]))
  }

  /** One converted value per entry of `m`: the conversion a range loop
      over a map performs, in ascending id order. */
  function MapValues<T, D>(m: map<Uuid, T>, f: T -> D): (s: seq<D>)
    ensures |s| == |m|
  {
    var ks := SortedKeys(m.Keys);
    assert |ks| == |m.Keys| == |m|;
    ValuesAt(m, ks, f)
  }

  lemma MapValuesEntries<T, D>(m: map<Uuid, T>, f: T -> D)
    ensures forall k | k in m :: f(m[k]) in MapValues(m, f)
    ensures forall d | d in MapValues(m, f) :: exists k :: k in m && d == f(m[k])
  {
    var ks := SortedKeys(m.Keys);
    forall k | k in m ensures f(m[k]) in MapValues(m, f) {
      var i :| 0 <= i < |ks| && ks[i] == k;
      assert MapValues(m, f)[i] == f(m[k]);
    }
  }

  /** Models the loop `for _, value := range m { out = append(out, f(value)) }`. */
  method CollectValues<T, D>(m: map<Uuid, T>, f: T -> D) returns (out: seq<D>)
    ensures out == MapValues(m, f)
    ensures |out| == |m|
  {
    var ks := SortedKeys(m.Keys);
    out := [];
    var i := 0;
    while i < |ks|
      invariant 0 <= i <= |ks|
      invariant |out| == i
      invariant forall j | 0 <= j < i :: out[j] == f(m[ks[j]])
    {
      out := out + [f(m[ks[i]])];
      i := i + 1;
    }
    assert out == ValuesAt(m, ks, f);
  }

  // ---------------------------------------------------------------------
  // Building a map from a slice: later duplicates overwrite earlier ones
  // ---------------------------------------------------------------------

  /** The map obtained by inserting `f(d)` under `key(f(d))` for each `d` of
      `s`, first to last. */
  function KeyedBy<D, T>(s: seq<D>, f: D -> T, key: T -> Uuid): (m: map<Uuid, T>)
    ensures forall k :: k in m <==> exists i :: 0 <= i < |s| && key(f(s[i])) == k
    ensures WellKeyed(m, key)
    decreases |s|
  {
    if s == [] then map[]
    else
      var t := f(s[|s| - 1]);
      var m := KeyedBy(s[..|s| - 1], f, key);
      assert forall i | 0 <= i < |s| - 1 :: s[..|s| - 1][i] == s[i];
      m[key(t) := t]
  }

  /** The last element of `s` with a given key is the one that is kept. */
  lemma {:induction false} KeyedByLastWins<D, T>(s: seq<D>, f: D -> T, key: T -> Uuid, i: nat)
    requires i < |s|
    requires forall j | i < j < |s| :: key(f(s[j])) != key(f(s[i]))
    ensures KeyedBy(s, f, key)[key(f(s[i]))] == f(s[i])
    decreases |s|
  {
    if i < |s| - 1 {
      var init := s[..|s| - 1];
      assert init[i] == s[i];
      forall j | i < j < |init| ensures key(f(init[j])) != key(f(init[i])) {
        assert init[j] == s[j];
      }
      KeyedByLastWins(init, f, key, i);
    }
  }

  lemma {:induction false} KeyedByValuesAt<T, D>(m: map<Uuid, T>, ks: seq<Uuid>, f: T -> D, g: D -> T, key: T -> Uuid)
    requires forall i | 0 <= i < |ks| :: ks[i] in m
    requires forall k | k in m :: g(f(m[k])) == m[k]
    requires WellKeyed(m, key)
    ensures KeyedBy(ValuesAt(m, ks, f), g, key) == map k | k in ks :: m[k]
    decreases |ks|
  {
    var s := ValuesAt(m, ks, f);
    if ks != [] {
      var n := |ks| - 1;
      assert s[..n] == ValuesAt(m, ks[..n], f);
      KeyedByValuesAt(m, ks[..n], f, g, key);
      assert ks == ks[..n] + [ks[n]];
      assert g(s[n]) == m[ks[n]];
    }
  }

  /** Converting a well-keyed map to a slice and back gives the map back,
      provided decoding undoes encoding. */
  lemma MapValuesRoundTrip<T, D>(m: map<Uuid, T>, f: T -> D, g: D -> T, key: T -> Uuid)
    requires forall k | k in m :: g(f(m[k])) == m[k]
    requires WellKeyed(m, key)
    ensures KeyedBy(MapValues(m, f), g, key) == m
  {
    var ks := SortedKeys(m.Keys);
    KeyedByValuesAt(m, ks, f, g, key);
  }

  /** Models the loop `for _, d := range s { t := f(d); m[key(t)] = t }`. */
  method BuildKeyedMap<D, T>(s: seq<D>, f: D -> T, key: T -> Uuid) returns (m: map<Uuid, T>)
    ensures m == KeyedBy(s, f, key)
  {
    m := map[];
    var i := 0;
    while i < |s|
      invariant 0 <= i <= |s|
      invariant m == KeyedBy(s[..i], f, key)
    {
      var t := f(s[i]);
      assert s[..i + 1][..i] == s[..i];
      m := m[key(t) := t];
      i := i + 1;
    }
    assert s[..i] == s;
  }

  // ---------------------------------------------------------------------
  // Sorting order values and taking their maximum
  // ---------------------------------------------------------------------

  predicate Ascending(s: seq<real>) {
    forall i, j | 0 <= i < j < |s| :: s[i] <= s[j]
  }

  function Insert(x: real, s: seq<real>): (r: seq<real>)
    requires Ascending(s)
    ensures Ascending(r) && multiset(r) == multiset(s) + multiset{x}
    ensures |r| > 0 && r[0] == if s != [] && s[0] < x then s[0] else x
  {
    if s == [] || x <= s[0] then [x] + s
    else
      assert s == [s[0]] + s[1..];
      var t := Insert(x, s[1..]);
      assert forall j | 0 <= j < |t| :: s[0] <= t[j] by {
        forall j | 0 <= j < |t| ensures s[0] <= t[j] {
          assert t[j] in multiset(s[1..]) + multiset{x};
        }
      }
      [s[0]] + t
  }

  /** `s` sorted into ascending order; stands for the library sort applied
      to the order values of a list's items. */
  function SortAscending(s: seq<real>): (r: seq<real>)
    ensures Ascending(r) && multiset(r) == multiset(s)
  {
    if s == [] then []
    else
      assert s == [s[0]] + s[1..];
      Insert(s[0], SortAscending(s[1..]))
  }

  lemma AscendingHeadLeast(a: seq<real>, x: real)
    requires Ascending(a) && x in multiset(a)
    ensures a[0] <= x
  {
    var i :| 0 <= i < |a| && a[i] == x;
  }

  lemma MultisetTail(a: seq<real>)
    requires a != []
    ensures multiset(a[1..]) == multiset(a) - multiset{a[0]}
  {
    assert a == [a[0]] + a[1..];
  }

  lemma AscendingTail(a: seq<real>)
    requires a != [] && Ascending(a)
    ensures Ascending(a[1..])
  {
    forall i, j | 0 <= i < j < |a[1..]| ensures a[1..][i] <= a[1..][j] {
      assert a[1..][i] == a[i + 1] && a[1..][j] == a[j + 1];
    }
  }

  /** Two ascending arrangements of one non-empty multiset start with the
      same (least) element and continue with arrangements of the same rest. */
  lemma AscendingHeads(a: seq<real>, b: seq<real>)
    requires Ascending(a) && Ascending(b) && multiset(a) == multiset(b) && a != [] && b != []
    ensures a[0] == b[0]
    ensures multiset(a[1..]) == multiset(b[1..]) && Ascending(a[1..]) && Ascending(b[1..])
  {
    assert a[0] in multiset(a) && b[0] in multiset(b);
    AscendingHeadLeast(a, b[0]);
    AscendingHeadLeast(b, a[0]);
    MultisetTail(a);
    MultisetTail(b);
    AscendingTail(a);
    AscendingTail(b);
  }

  /** An ascending arrangement of a multiset is unique, so the result of
      sorting does not depend on the order the values were collected in. */
  lemma {:induction false} AscendingUnique(a: seq<real>, b: seq<real>)
    requires Ascending(a) && Ascending(b) && multiset(a) == multiset(b)
    ensures a == b
    decreases |a|
  {
    assert |a| == |multiset(a)| == |multiset(b)| == |b|;
    if a != [] {
      AscendingHeads(a, b);
      AscendingUnique(a[1..], b[1..]);
      assert a == [a[0]] + a[1..] && b == [b[0]] + b[1..];
    }
  }

  /** The largest of `acc` and the elements of `s`: the accumulator loop
      `if v > acc { acc = v }`. */
  function MaxFrom(acc: real, s: seq<real>): (r: real)
    decreases |s|
  {
    if s == [] then acc
    else MaxFrom(if s[0] > acc then s[0] else acc, s[1..])
  }

  lemma {:induction false} MaxFromBounds(acc: real, s: seq<real>)
    ensures MaxFrom(acc, s) >= acc
    ensures forall i | 0 <= i < |s| :: s[i] <= MaxFrom(acc, s)
    ensures MaxFrom(acc, s) == acc || exists i :: 0 <= i < |s| && MaxFrom(acc, s) == s[i]
    decreases |s|
  {
    if s != [] {
      var acc' := if s[0] > acc then s[0] else acc;
      MaxFromBounds(acc', s[1..]);
      assert forall i | 1 <= i < |s| :: s[i] == s[1..][i - 1];
      if MaxFrom(acc, s) != acc && MaxFrom(acc, s) != acc' {
        var i :| 0 <= i < |s[1..]| && MaxFrom(acc', s[1..]) == s[1..][i];
        assert MaxFrom(acc, s) == s[i + 1];
      }
    }
  }

  lemma {:induction false} MaxFromSnoc(acc: real, s: seq<real>, x: real)
    ensures MaxFrom(acc, s + [x]) == (if x > MaxFrom(acc, s) then x else MaxFrom(acc, s))
    decreases |s|
  {
    if s == [] {
      assert [x][1..] == [];
    } else {
      assert (s + [x])[1..] == s[1..] + [x];
      MaxFromSnoc(if s[0] > acc then s[0] else acc, s[1..], x);
    }
  }
}
