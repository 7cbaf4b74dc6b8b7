/**
 * Sequence utilities shared by the collections of the store: lookup by key,
 * selection by key, removal at an index, a descending sort by an integer key
 * (the `.sort({ field: -1 })` of the queries) and the skip/limit window.
 *
 * Keys are passed as named functions (`Db.InternshipKey`, ...), so that a
 * lookup in a contract and the same lookup in a body are the same term.
 */
module Seqs {
  import opened Wrappers

  /** The first index whose element has key `k`, as `findOne` returns the first match. */
  function Find<T, K(==)>(s: seq<T>, key: T -> K, k: K): (r: Option<nat>)
    ensures r.Some? ==> r.value < |s| && key(s[r.value]) == k
    ensures r.Some? ==> forall j :: 0 <= j < r.value ==> key(s[j]) != k
    ensures r.None? <==> forall j :: 0 <= j < |s| ==> key(s[j]) != k
  {
    if |s| == 0 then None
    else if key(s[0]) == k then Some(0)
    else match Find(s[1..], key, k)
      case None => None
      case Some(j) => Some(j + 1)
  }

  /** The elements of `s` whose key lies in `ks`, in their order in `s` (a `find` with `$in`). */
  function Select<T(!new), K(==)>(s: seq<T>, key: T -> K, ks: set<K>): (r: seq<T>)
    ensures forall x :: x in r <==> x in s && key(x) in ks
    ensures forall j :: 0 <= j < |r| ==> key(r[j]) in ks
    ensures forall x :: multiset(r)[x] == (if key(x) in ks then multiset(s)[x] else 0)
  {
    if |s| == 0 then []
    else
      var rest := Select(s[1..], key, ks);
      assert s == [s[0]] + s[1..];
      if key(s[0]) in ks then [s[0]] + rest else rest
  }

  /** The elements of `s` that satisfy `p`, in their order in `s` (a `find` with a filter document). */
  function Filter<T(!new)>(s: seq<T>, p: T -> bool): (r: seq<T>)
    ensures forall x :: x in r <==> x in s && p(x)
    ensures forall j :: 0 <= j < |r| ==> p(r[j])
    ensures forall x :: multiset(r)[x] == (if p(x) then multiset(s)[x] else 0)
    ensures |r| <= |s|
  {
    if |s| == 0 then []
    else
      var rest := Filter(s[1..], p);
      assert s == [s[0]] + s[1..];
      if p(s[0]) then [s[0]] + rest else rest
  }

  /** No two elements of `s` share a key (a unique index on that key). */
  ghost predicate DistinctBy<T, K>(s: seq<T>, key: T -> K) {
    forall i, j :: 0 <= i < j < |s| ==> key(s[i]) != key(s[j])
  }

  /** `s` without its element at index `k` (a `findByIdAndDelete`). */
  function RemoveAt<T>(s: seq<T>, k: nat): (r: seq<T>)
    requires k < |s|
    ensures |r| == |s| - 1
    ensures forall j :: 0 <= j < k ==> r[j] == s[j]
    ensures forall j :: k <= j < |r| ==> r[j] == s[j + 1]
    ensures multiset(r) == multiset(s) - multiset{s[k]}
  {
    assert s == s[..k] + [s[k]] + s[k + 1..];
    s[..k] + s[k + 1..]
  }

  lemma DistinctAppend<T, K>(s: seq<T>, x: T, key: T -> K)
    requires DistinctBy(s, key)
    requires forall j :: 0 <= j < |s| ==> key(s[j]) != key(x)
    ensures DistinctBy(s + [x], key)
  {
  }

  lemma DistinctRemove<T, K>(s: seq<T>, k: nat, key: T -> K)
    requires k < |s| && DistinctBy(s, key)
    ensures DistinctBy(RemoveAt(s, k), key)
  {
    var r := RemoveAt(s, k);
    forall i, j | 0 <= i < j < |r| ensures key(r[i]) != key(r[j]) {
      var i' := if i < k then i else i + 1;
      var j' := if j < k then j else j + 1;
      assert r[i] == s[i'] && r[j] == s[j'];
    }
  }

  lemma DistinctUpdate<T, K>(s: seq<T>, k: nat, x: T, key: T -> K)
    requires k < |s| && DistinctBy(s, key) && key(x) == key(s[k])
    ensures DistinctBy(s[k := x], key)
  {
    var r := s[k := x];
    forall i, j | 0 <= i < j < |r| ensures key(r[i]) != key(r[j]) {
      assert key(r[i]) == key(s[i]) && key(r[j]) == key(s[j]);
    }
  }

  /** In a sequence without duplicate keys, the element found by key is the only one with it. */
  lemma FindUnique<T, K>(s: seq<T>, key: T -> K, j: nat)
    requires DistinctBy(s, key) && j < |s|
    ensures Find(s, key, key(s[j])) == Some(j)
  {
  }

  // ---------------------------------------------------------------------------
  // Descending sort by an integer key

  ghost predicate SortedDesc<T>(s: seq<T>, key: T -> int) {
    forall i, j :: 0 <= i < j < |s| ==> key(s[i]) >= key(s[j])
  }

  /** `x` placed in front of the first element whose key is not above its own. */
  function InsertDesc<T>(x: T, s: seq<T>, key: T -> int): (r: seq<T>)
    requires SortedDesc(s, key)
    ensures SortedDesc(r, key)
    ensures multiset(r) == multiset(s) + multiset{x}
    ensures |r| == |s| + 1
    ensures |r| > 0 && (key(r[0]) == key(x) || (|s| > 0 && key(r[0]) == key(s[0])))
  {
    if |s| == 0 || key(s[0]) <= key(x) then [x] + s
    else
      var rest := InsertDesc(x, s[1..], key);
      assert s == [s[0]] + s[1..];
      [s[0]] + rest
  }

  /** An insertion sort: the result is ordered by `key`, largest first, and is a permutation of `s`. */
  function SortDesc<T>(s: seq<T>, key: T -> int): (r: seq<T>)
    ensures SortedDesc(r, key)
    ensures multiset(r) == multiset(s)
    ensures |r| == |s|
  {
    if |s| == 0 then []
    else
      assert s == [s[0]] + s[1..];
      InsertDesc(s[0], SortDesc(s[1..], key), key)
  }

  /**
   * What MongoDB returns for `.skip(skip).limit(limit)`: drop `skip` elements,
   * then keep `limit` of them; a limit of 0 keeps all, a negative limit keeps
   * as many as its absolute value.
   */
  function Window<T>(s: seq<T>, skip: nat, limit: int): (r: seq<T>)
    ensures skip >= |s| ==> r == []
    ensures skip < |s| ==> |r| <= |s| - skip
    ensures skip < |s| ==> r == s[skip..skip + |r|]
    ensures limit != 0 ==> |r| <= (if limit < 0 then -limit else limit)
    ensures limit == 0 ==> |r| == (if skip <= |s| then |s| - skip else 0)
    ensures limit != 0 && skip + (if limit < 0 then -limit else limit) <= |s| ==> |r| == (if limit < 0 then -limit else limit)
    ensures limit != 0 && skip <= |s| < skip + (if limit < 0 then -limit else limit) ==> |r| == |s| - skip
  {
    var rest := if skip <= |s| then s[skip..] else [];
    var n := if limit < 0 then -limit else limit;
    if limit == 0 || |rest| <= n then rest else rest[..n]
  }

  lemma WindowSorted<T>(s: seq<T>, skip: nat, limit: int, key: T -> int)
    requires SortedDesc(s, key)
    ensures SortedDesc(Window(s, skip, limit), key)
  {
    var r := Window(s, skip, limit);
    forall i, j | 0 <= i < j < |r| ensures key(r[i]) >= key(r[j]) {
      assert r[i] == s[skip + i] && r[j] == s[skip + j];
    }
  }

  lemma WindowWithin<T(!new)>(s: seq<T>, skip: nat, limit: int)
    ensures forall x :: x in Window(s, skip, limit) ==> x in s
  {
    var r := Window(s, skip, limit);
    forall x | x in r ensures x in s {
      var i :| 0 <= i < |r| && r[i] == x;
      assert r[i] == s[skip + i];
    }
  }
}
