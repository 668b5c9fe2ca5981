/** The near_sdk persistent collections the contracts use, as values.

    An `UnorderedSet` keeps its elements in a vector: `insert` appends a new element and
    `remove` swaps the last element into the removed slot (`swap_remove`), so an element
    vector never holds an element twice. An `UnorderedMap` keeps its keys the same way next
    to the key/value association. A `LookupMap` has no order and is a plain `map`.
    Paginated views iterate such a vector with `skip(start).take(limit)`. */
module Collections {
  import opened Near

  function Min(a: int, b: int): int {
    if a <= b then a else b
  }

  /** No element occurs twice. */
  ghost predicate Distinct<T>(s: seq<T>) {
    forall i, j | 0 <= i < j < |s| :: s[i] != s[j]
  }

  // ---------------------------------------------------------------------------
  // UnorderedSet

  /** `UnorderedSet::insert`: a new element goes to the end, a present one changes nothing. */
  function SetInsert<T(==,!new)>(s: seq<T>, x: T): (r: seq<T>)
    ensures forall y :: y in r <==> y in s || y == x
    ensures Distinct(s) ==> Distinct(r)
    ensures x in s ==> r == s
    ensures x !in s ==> |r| == |s| + 1 && r[..|s|] == s
  {
    if x in s then s else s + [x]
  }

  /** The position of `x` in `s`. */
  function IndexOf<T(==)>(s: seq<T>, x: T): (i: nat)
    requires x in s
    ensures i < |s| && s[i] == x
  {
    if s[0] == x then 0 else 1 + IndexOf(s[1..], x)
  }

  /** `UnorderedSet::remove`: the last element takes the place of the removed one. */
  function SetRemove<T(==,!new)>(s: seq<T>, x: T): (r: seq<T>)
    ensures x !in s ==> r == s
    ensures x in s ==> |r| == |s| - 1
    ensures Distinct(s) ==> Distinct(r) && forall y :: y in r <==> y in s && y != x
  {
    if x !in s then s
    else
      var i := IndexOf(s, x);
      SwapRemove(s, i);
      s[i := s[|s| - 1]][..|s| - 1]
  }

  lemma SwapRemove<T(!new)>(s: seq<T>, i: nat)
    requires i < |s|
    ensures Distinct(s) ==>
      var r := s[i := s[|s| - 1]][..|s| - 1];
      Distinct(r) && forall y :: y in r <==> y in s && y != s[i]
  {
    if Distinct(s) {
      var last := |s| - 1;
      var r := s[i := s[last]][..last];
      assert forall j | 0 <= j < last :: r[j] == if j == i then s[last] else s[j];
      forall y
        ensures y in r <==> y in s && y != s[i]
      {
        if y in s && y != s[i] {
          var j :| 0 <= j < |s| && s[j] == y;
          if j == last {
            assert r[i] == y;
          } else {
            assert r[j] == y;
          }
        }
      }
    }
  }

  /** A vector that lists each element once is as long as the set of its elements. */
  lemma {:induction false} DistinctSize<T>(s: seq<T>)
    requires Distinct(s)
    ensures |set x | x in s| == |s|
  {
    if s != [] {
      var rest := s[..|s| - 1];
      DistinctSize(rest);
      assert (set x | x in s) == (set x | x in rest) + {s[|s| - 1]};
      assert s[|s| - 1] !in rest;
    }
  }

  // ---------------------------------------------------------------------------
  // Indexes: a LookupMap from a key to an UnorderedSet, where a set that empties is
  // dropped from the map

  /** Every set in the index lists its members once and is not empty. */
  ghost predicate SetsWellFormed<K, T>(index: map<K, seq<T>>) {
    forall k | k in index :: Distinct(index[k]) && |index[k]| > 0
  }

  /** The members of `k`'s set, empty when `k` has none. */
  function Members<K, T>(index: map<K, seq<T>>, k: K): seq<T> {
    if k in index then index[k] else []
  }

  /** Put `x` into `k`'s set, creating the set when `k` has none. */
  function IndexInsert<K(!new), T(==,!new)>(index: map<K, seq<T>>, k: K, x: T): (r: map<K, seq<T>>)
    ensures r.Keys == index.Keys + {k}
    ensures forall y :: y in r[k] <==> y in Members(index, k) || y == x
    ensures Distinct(Members(index, k)) ==> Distinct(r[k])
    ensures forall j | j in index && j != k :: r[j] == index[j]
    ensures forall j | j != k :: Members(r, j) == Members(index, j)
  {
    index[k := SetInsert(Members(index, k), x)]
  }

  /** Take `x` out of `k`'s set and drop the set once it is empty. */
  function IndexRemove<K(!new), T(==,!new)>(index: map<K, seq<T>>, k: K, x: T): (r: map<K, seq<T>>)
    requires k in index
    ensures r.Keys <= index.Keys
    ensures forall j | j in index && j != k :: j in r && r[j] == index[j]
    ensures forall j | j != k :: Members(r, j) == Members(index, j)
    ensures Distinct(index[k]) ==>
      && (k in r <==> |index[k]| > (if x in index[k] then 1 else 0))
      && (k in r ==> Distinct(r[k]) && |r[k]| > 0)
      && forall y :: y in Members(r, k) <==> y in index[k] && y != x
  {
    var rest := SetRemove(index[k], x);
    if |rest| == 0 then index - {k} else index[k := rest]
  }

  /** Inserting a fresh element and removing it again leaves every set with the same
      members. */
  lemma InsertThenRemove<K(!new), T(!new)>(index: map<K, seq<T>>, k: K, x: T)
    requires SetsWellFormed(index)
    requires x !in Members(index, k)
    ensures var r := IndexRemove(IndexInsert(index, k, x), k, x);
      forall j, y :: y in Members(r, j) <==> y in Members(index, j)
  {
    var inserted := IndexInsert(index, k, x);
    var r := IndexRemove(inserted, k, x);
    assert Distinct(inserted[k]);
    forall j, y
      ensures y in Members(r, j) <==> y in Members(index, j)
    {
      if j != k && j in index {
        assert j in r && r[j] == index[j];
      }
    }
  }

  // ---------------------------------------------------------------------------
  // UnorderedMap

  /** The key vector and the key/value association of an `UnorderedMap`. */
  datatype UnorderedMap<K(==,!new), V> = UnorderedMap(keys: seq<K>, entries: map<K, V>) {

    /** The key vector lists every key exactly once. */
    ghost predicate Valid() {
      Distinct(keys) && forall k :: k in keys <==> k in entries
    }

    function Len(): nat {
      |keys|
    }

    /** `UnorderedMap::insert`: a new key is appended, a present key keeps its place. */
    function Insert(k: K, v: V): (r: UnorderedMap<K, V>)
      ensures r.entries == entries[k := v]
      ensures Valid() ==> r.Valid()
      ensures Valid() && k in entries ==> r.keys == keys
    {
      UnorderedMap(SetInsert(keys, k), entries[k := v])
    }

    /** `UnorderedMap::remove`. */
    function Remove(k: K): (r: UnorderedMap<K, V>)
      ensures r.entries == entries - {k}
      ensures Valid() ==> r.Valid()
    {
      UnorderedMap(SetRemove(keys, k), entries - {k})
    }

    /** The values in key-vector order (`UnorderedMap::values`). */
    function Values(): (vs: seq<V>)
      requires Valid()
      ensures |vs| == |keys|
      ensures forall i | 0 <= i < |keys| :: vs[i] == entries[keys[i]]
    {
      seq(|keys|, i requires 0 <= i < |keys| => entries[keys[i]])
    }
  }

  /** A well-formed `UnorderedMap`'s key vector is as long as it has keys. */
  lemma KeyVectorCounts<K(!new), V>(m: UnorderedMap<K, V>)
    ensures m.Valid() ==> m.Len() == |m.entries.Keys|
  {
    if m.Valid() {
      DistinctSize(m.keys);
      assert (set k | k in m.keys) == m.entries.Keys;
    }
  }

  function EmptyMap<K(==,!new), V>(): (r: UnorderedMap<K, V>)
    ensures r.Valid() && r.Len() == 0 && r.entries == map[]
  {
    UnorderedMap([], map[])
  }

  // ---------------------------------------------------------------------------
  // Pagination

  /** `usize` on the wasm32 target the contracts are compiled to: the `as usize` casts
      of `from_index` (a u128) and `limit` (a u64) keep the low 32 bits. */
  const USIZE_MODULUS: nat := 0x1_0000_0000

  /** `Iterator::skip`, one element at a time. */
  function Skip<T>(s: seq<T>, n: nat): seq<T>
    decreases n
  {
    if n == 0 || |s| == 0 then s else Skip(s[1..], n - 1)
  }

  /** `Iterator::take`, one element at a time. */
  function Take<T>(s: seq<T>, n: nat): seq<T>
    decreases n
  {
    if n == 0 || |s| == 0 then [] else [s[0]] + Take(s[1..], n - 1)
  }

  function Start(fromIndex: Option<nat>): nat {
    fromIndex.GetOr(0) % USIZE_MODULUS
  }

  function Count(limit: Option<nat>): nat {
    limit.GetOr(0) % USIZE_MODULUS
  }

  /** `iter().skip(from_index.unwrap_or(0) as usize).take(limit.unwrap_or(0) as usize)`
      as one slice of the vector. */
  function Page<T>(s: seq<T>, fromIndex: Option<nat>, limit: Option<nat>): (r: seq<T>)
    ensures |r| <= Count(limit) && |r| <= |s|
    ensures Start(fromIndex) < |s| ==> |r| == Min(Count(limit), |s| - Start(fromIndex))
    ensures Start(fromIndex) >= |s| ==> r == []
    ensures forall i | 0 <= i < |r| :: r[i] == s[Start(fromIndex) + i]
  {
    var start := Min(Start(fromIndex), |s|);
    var end := Min(start + Count(limit), |s|);
    s[start..end]
  }

  lemma {:induction false} SkipIsSuffix<T>(s: seq<T>, n: nat)
    ensures Skip(s, n) == s[Min(n, |s|)..]
    decreases n
  {
    if n != 0 && |s| != 0 {
      SkipIsSuffix(s[1..], n - 1);
      assert s[1..][Min(n - 1, |s| - 1)..] == s[Min(n, |s|)..];
    }
  }

  lemma {:induction false} TakeIsPrefix<T>(s: seq<T>, n: nat)
    ensures Take(s, n) == s[..Min(n, |s|)]
    decreases n
  {
    if n != 0 && |s| != 0 {
      TakeIsPrefix(s[1..], n - 1);
      assert [s[0]] + s[1..][..Min(n - 1, |s| - 1)] == s[..Min(n, |s|)];
    }
  }

  /** The slice `Page` takes is what the iterator chain yields. */
  lemma PageIsSkipTake<T>(s: seq<T>, fromIndex: Option<nat>, limit: Option<nat>)
    ensures Page(s, fromIndex, limit) == Take(Skip(s, Start(fromIndex)), Count(limit))
  {
    SkipIsSuffix(s, Start(fromIndex));
    TakeIsPrefix(Skip(s, Start(fromIndex)), Count(limit));
  }

  // ---------------------------------------------------------------------------
  // Map updates

  /** Updating a key and then putting its old value back gives the map back. */
  lemma UndoUpdate<K, V>(m: map<K, V>, k: K, v: V)
    requires k in m
    ensures m[k := v][k := m[k]] == m
  {
  }

  /** A map with the same keys as `m` that agrees with it everywhere but at `k` is `m`
      with `k` updated. */
  lemma OnlyEntryChanged<K, V>(m: map<K, V>, m1: map<K, V>, k: K)
    requires k in m && m1.Keys == m.Keys
    requires forall j | j in m && j != k :: m1[j] == m[j]
    ensures m1 == m[k := m1[k]]
  {
  }

  /** Adding a fresh key leaves every existing entry as it was. */
  lemma FreshKeyKeepsEntries<K, V>(m: map<K, V>, k: K, v: V)
    requires k !in m
    ensures forall j | j in m :: m[k := v][j] == m[j]
  {
  }

  /** A second update of the same key overrides the first. */
  lemma UpdateTwice<K, V>(m: map<K, V>, k: K, v: V, w: V)
    ensures m[k := v][k := w] == m[k := w]
  {
  }

  /** The elements of a sequence, as a set. */
  function Elements<T>(s: seq<T>): set<T> {
    set x | x in s
  }

  /** The elements of a repetition-free sequence, less its last one, are the elements
      of its prefix. */
  lemma ElementsDropLast<T>(s: seq<T>)
    requires Distinct(s) && |s| > 0
    ensures Elements(s) - {s[|s| - 1]} == Elements(s[..|s| - 1])
  {
    var n := |s| - 1;
    forall x | x in Elements(s) - {s[n]}
      ensures x in s[..n]
    {
      var i :| 0 <= i < |s| && s[i] == x;
      assert i < n;
    }
  }

  /** Some order in which iteration visits a set: every element once. Which order is
      left open, as the iteration order of a hash map is. */
  method IterationOrder<T>(keys: set<T>) returns (order: seq<T>)
    ensures Distinct(order)
    ensures Elements(order) == keys
    ensures |order| == |keys|
  {
    order := [];
    var left := keys;
    while left != {}
      invariant left <= keys
      invariant forall x | x in order :: x in keys && x !in left
      invariant forall x | x in keys && x !in left :: x in order
      invariant Distinct(order)
      invariant |order| + |left| == |keys|
      decreases left
    {
      var x :| x in left;
      order := order + [x];
      left := left - {x};
    }
  }

  // ---------------------------------------------------------------------------
  // Sums over maps (iteration order does not matter)

  /** The sum of `m`'s values at the keys `ks`. */
  ghost function SumOver<K>(m: map<K, nat>, ks: set<K>): nat
    requires ks <= m.Keys
    decreases ks
  {
    if ks == {} then 0 else var k :| k in ks; m[k] + SumOver(m, ks - {k})
  }

  /** The sum of all values of `m`. */
  ghost function Sum<K>(m: map<K, nat>): nat {
    SumOver(m, m.Keys)
  }

  /** Any key can be taken out first. */
  lemma {:induction false} SumOverRemove<K>(m: map<K, nat>, ks: set<K>, k: K)
    requires ks <= m.Keys && k in ks
    ensures SumOver(m, ks) == m[k] + SumOver(m, ks - {k})
    decreases ks
  {
    var j :| j in ks && SumOver(m, ks) == m[j] + SumOver(m, ks - {j});
    if j != k {
      SumOverRemove(m, ks - {j}, k);
      SumOverRemove(m, ks - {k}, j);
      assert ks - {j} - {k} == ks - {k} - {j};
    }
  }

  /** The sum only looks at the values at `ks`. */
  lemma {:induction false} SumOverAgree<K>(m1: map<K, nat>, m2: map<K, nat>, ks: set<K>)
    requires ks <= m1.Keys && ks <= m2.Keys
    requires forall k | k in ks :: m1[k] == m2[k]
    ensures SumOver(m1, ks) == SumOver(m2, ks)
    decreases ks
  {
    if ks != {} {
      var k :| k in ks;
      SumOverRemove(m1, ks, k);
      SumOverRemove(m2, ks, k);
      SumOverAgree(m1, m2, ks - {k});
    }
  }

  /** Adding a fresh key adds its value. */
  lemma SumOverAddFresh<K>(m: map<K, nat>, ks: set<K>, k: K, v: nat)
    requires ks <= m.Keys && k !in ks
    ensures SumOver(m[k := v], ks + {k}) == v + SumOver(m, ks)
  {
    SumOverRemove(m[k := v], ks + {k}, k);
    assert (ks + {k}) - {k} == ks;
    SumOverAgree(m[k := v], m, ks);
  }

  /** A sum over fewer keys is no larger. */
  lemma {:induction false} SumOverSubset<K>(m: map<K, nat>, a: set<K>, b: set<K>)
    requires a <= b <= m.Keys
    ensures SumOver(m, a) <= SumOver(m, b)
    decreases b
  {
    if a != b {
      assert a < b;
      var k :| k in b && k !in a;
      SumOverRemove(m, b, k);
      SumOverSubset(m, a, b - {k});
    }
  }

  lemma SumOverSingleton<K>(m: map<K, nat>, k: K)
    requires k in m
    ensures SumOver(m, {k}) == m[k]
  {
    SumOverRemove(m, {k}, k);
    assert {k} - {k} == {};
  }
}
