/**
 * The array primitives the store is built from: `findIndex` and `find` with a
 * key-equality test, `filter`, and the "find the index, then push or assign"
 * upsert that `server/db.js` writes out for users and carts.
 */
module Seqs {
  import opened Wrappers

  /** `s.findIndex(x => key(x) === k)`: the first index whose key is `k`, or -1. */
  function IndexOf<T, K(==)>(s: seq<T>, key: T -> K, k: K): (r: int)
    ensures -1 <= r < |s|
    ensures r == -1 <==> forall j :: 0 <= j < |s| ==> key(s[j]) != k
    ensures 0 <= r ==> key(s[r]) == k && forall j :: 0 <= j < r ==> key(s[j]) != k
  {
    if |s| == 0 then -1
    else if key(s[0]) == k then 0
    else
      var i := IndexOf(s[1..], key, k);
      if i == -1 then -1 else i + 1
  }

  /** `s.find(x => key(x) === k)`: the first element whose key is `k`. */
  function FindBy<T, K(==)>(s: seq<T>, key: T -> K, k: K): (r: Option<T>)
    ensures r.None? <==> forall j :: 0 <= j < |s| ==> key(s[j]) != k
    ensures r.Some? ==> key(r.value) == k && r.value in s
    ensures r.Some? ==> r.value == s[IndexOf(s, key, k)]
  {
    var i := IndexOf(s, key, k);
    if i == -1 then None else Some(s[i])
  }

  /** `s.filter(p)`: the elements satisfying `p`, in their original order. */
  function Filter<T>(s: seq<T>, p: T -> bool): (r: seq<T>)
    ensures |r| <= |s|
    ensures forall x :: x in r ==> x in s && p(x)
    ensures forall x :: x in s && p(x) ==> x in r
    ensures |r| == |s| <==> forall j :: 0 <= j < |s| ==> p(s[j])
  {
    if |s| == 0 then []
    else if p(s[0]) then [s[0]] + Filter(s[1..], p)
    else Filter(s[1..], p)
  }

  /** `r` is obtained from `s` by deleting elements, keeping the order of the rest. */
  ghost predicate Subsequence<T>(r: seq<T>, s: seq<T>)
    decreases |s|
  {
    |r| <= |s| &&
    (r == [] || (r[0] == s[0] && Subsequence(r[1..], s[1..])) || Subsequence(r, s[1..]))
  }

  /** No two entries share a key. */
  ghost predicate UniqueKeys<T, K>(s: seq<T>, key: T -> K)
  {
    forall i, j :: 0 <= i < j < |s| ==> key(s[i]) != key(s[j])
  }

  /** The predicate "key differs from k", as a value that `Filter` can take. */
  function KeyIsNot<T, K(==)>(key: T -> K, k: K): T -> bool
  {
    x => key(x) != k
  }

  /** `s.filter(x => key(x) !== k)`: every entry with key `k` dropped. */
  function RemoveKey<T, K(==)>(s: seq<T>, key: T -> K, k: K): (r: seq<T>)
    ensures forall x :: x in r ==> x in s && key(x) != k
    ensures forall x :: x in s && key(x) != k ==> x in r
    ensures FindBy(r, key, k).None?
    ensures |r| == |s| <==> FindBy(s, key, k).None?
  {
    Filter(s, KeyIsNot(key, k))
  }

  /**
   * Insert-or-replace by key: if no entry has `key(x)`, `x` is pushed at the
   * end; otherwise the first entry with that key is overwritten in place.
   */
  function Upsert<T, K(==)>(s: seq<T>, x: T, key: T -> K): (r: seq<T>)
    ensures FindBy(s, key, key(x)).None? ==> r == s + [x]
    ensures FindBy(s, key, key(x)).Some? ==> |r| == |s|
    ensures forall j :: 0 <= j < |s| && j != IndexOf(s, key, key(x)) ==> r[j] == s[j]
    ensures forall y :: y in r ==> y == x || y in s
    ensures FindBy(r, key, key(x)) == Some(x)
  {
    var i := IndexOf(s, key, key(x));
    if i == -1 then
      IndexOfFirst(s + [x], key, key(x), |s|);
      s + [x]
    else
      IndexOfFirst(s[i := x], key, key(x), i);
      s[i := x]
  }

  /** `IndexOf` is pinned down by one occurrence with no earlier one. */
  lemma IndexOfFirst<T, K>(s: seq<T>, key: T -> K, k: K, i: nat)
    requires i < |s| && key(s[i]) == k
    requires forall j :: 0 <= j < i ==> key(s[j]) != k
    ensures IndexOf(s, key, k) == i
  {
  }

  lemma {:induction false} FilterSubsequence<T>(s: seq<T>, p: T -> bool)
    ensures Subsequence(Filter(s, p), s)
  {
    if |s| > 0 {
      FilterSubsequence(s[1..], p);
      var r := Filter(s, p);
      if p(s[0]) {
        assert r[0] == s[0] && r[1..] == Filter(s[1..], p);
      }
    }
  }

  lemma {:induction false} FilterKeepsAll<T>(s: seq<T>, p: T -> bool)
    requires forall j :: 0 <= j < |s| ==> p(s[j])
    ensures Filter(s, p) == s
  {
    if |s| > 0 {
      FilterKeepsAll(s[1..], p);
      assert s == [s[0]] + s[1..];
    }
  }

  /** Filtering by `p` and then by `q` is filtering once by their conjunction. */
  lemma {:induction false} FilterFilter<T>(s: seq<T>, p: T -> bool, q: T -> bool, pq: T -> bool)
    requires forall x :: pq(x) == (p(x) && q(x))
    ensures Filter(Filter(s, p), q) == Filter(s, pq)
  {
    if |s| > 0 {
      FilterFilter(s[1..], p, q, pq);
      if p(s[0]) {
        var t := Filter(s, p);
        assert t[0] == s[0] && t[1..] == Filter(s[1..], p);
      }
    }
  }

  lemma {:induction false} SubsequenceMembers<T>(r: seq<T>, s: seq<T>)
    requires Subsequence(r, s)
    ensures forall x :: x in r ==> x in s
    decreases |s|
  {
    if r != [] {
      if r[0] == s[0] && Subsequence(r[1..], s[1..]) {
        SubsequenceMembers(r[1..], s[1..]);
        assert forall x :: x in r ==> x == r[0] || x in r[1..];
      } else {
        SubsequenceMembers(r, s[1..]);
      }
    }
  }

  /** Deleting entries keeps keys unique. */
  lemma {:induction false} SubsequenceUniqueKeys<T, K>(r: seq<T>, s: seq<T>, key: T -> K)
    requires Subsequence(r, s) && UniqueKeys(s, key)
    ensures UniqueKeys(r, key)
    decreases |s|
  {
    if r != [] {
      if r[0] == s[0] && Subsequence(r[1..], s[1..]) {
        SubsequenceUniqueKeys(r[1..], s[1..], key);
        SubsequenceMembers(r[1..], s[1..]);
        forall j | 1 <= j < |r|
          ensures key(r[0]) != key(r[j])
        {
          assert r[j] in r[1..];
          var k :| 0 <= k < |s[1..]| && s[1..][k] == r[j];
          assert s[k + 1] == r[j];
        }
      } else {
        SubsequenceUniqueKeys(r, s[1..], key);
      }
    }
  }

  /** Filters by pointwise-equal predicates agree. */
  lemma {:induction false} FilterExt<T>(s: seq<T>, p: T -> bool, q: T -> bool)
    requires forall x :: p(x) == q(x)
    ensures Filter(s, p) == Filter(s, q)
  {
    if |s| > 0 {
      FilterExt(s[1..], p, q);
    }
  }

  lemma {:induction false} FilterIdempotent<T>(s: seq<T>, p: T -> bool)
    ensures Filter(Filter(s, p), p) == Filter(s, p)
  {
    FilterFilter(s, p, p, p);
  }

  /** Removing a key twice leaves the same sequence as removing it once. */
  lemma RemoveKeyIdempotent<T, K>(s: seq<T>, key: T -> K, k: K)
    ensures RemoveKey(RemoveKey(s, key, k), key, k) == RemoveKey(s, key, k)
  {
    FilterIdempotent(s, KeyIsNot(key, k));
  }

  /** Removing a key no entry has changes nothing. */
  lemma RemoveAbsentKey<T, K>(s: seq<T>, key: T -> K, k: K)
    requires FindBy(s, key, k).None?
    ensures RemoveKey(s, key, k) == s
  {
    FilterKeepsAll(s, KeyIsNot(key, k));
  }

  lemma RemoveKeySubsequence<T, K>(s: seq<T>, key: T -> K, k: K)
    ensures Subsequence(RemoveKey(s, key, k), s)
  {
    FilterSubsequence(s, KeyIsNot(key, k));
  }

  /** The position of key `k` does not move when an entry with another key is overwritten. */
  lemma {:induction false} IndexOfUpdate<T, K>(s: seq<T>, i: nat, y: T, key: T -> K, k: K)
    requires i < |s| && key(s[i]) != k && key(y) != k
    ensures IndexOf(s[i := y], key, k) == IndexOf(s, key, k)
  {
    if i > 0 {
      assert s[i := y][1..] == s[1..][i - 1 := y];
      IndexOfUpdate(s[1..], i - 1, y, key, k);
    } else {
      assert s[i := y][1..] == s[1..];
    }
  }

  /** Appending an entry with another key does not change where `k` is found. */
  lemma {:induction false} IndexOfAppend<T, K>(s: seq<T>, y: T, key: T -> K, k: K)
    requires key(y) != k
    ensures IndexOf(s + [y], key, k) == IndexOf(s, key, k)
  {
    if |s| > 0 {
      assert (s + [y])[1..] == s[1..] + [y];
      IndexOfAppend(s[1..], y, key, k);
    }
  }

  /** Upserting `x` leaves the lookup of every other key unchanged. */
  lemma UpsertOtherKey<T, K>(s: seq<T>, x: T, key: T -> K, k: K)
    requires k != key(x)
    ensures FindBy(Upsert(s, x, key), key, k) == FindBy(s, key, k)
  {
    var i := IndexOf(s, key, key(x));
    if i == -1 {
      IndexOfAppend(s, x, key, k);
    } else {
      IndexOfUpdate(s, i, x, key, k);
    }
  }

  /** Upserting keeps at most one entry per key. */
  lemma UpsertUniqueKeys<T, K>(s: seq<T>, x: T, key: T -> K)
    requires UniqueKeys(s, key)
    ensures UniqueKeys(Upsert(s, x, key), key)
  {
    var r := Upsert(s, x, key);
    var i := IndexOf(s, key, key(x));
    forall a, b | 0 <= a < b < |r|
      ensures key(r[a]) != key(r[b])
    {
      if i == -1 {
        if b == |s| { assert r[b] == x && r[a] == s[a]; }
      } else if a == i || b == i {
        var o := if a == i then b else a;
        assert r[o] == s[o] && key(s[i]) == key(x);
      }
    }
  }

  /**
   * Upserting under one key keeps a second key unique when no stored entry
   * shares `x`'s value of that second key.
   */
  lemma UpsertFreshKeyUnique<T, K, L>(s: seq<T>, x: T, key: T -> K, key2: T -> L)
    requires UniqueKeys(s, key2)
    requires forall j :: 0 <= j < |s| ==> key2(s[j]) != key2(x)
    ensures UniqueKeys(Upsert(s, x, key), key2)
  {
    var r := Upsert(s, x, key);
    var i := IndexOf(s, key, key(x));
    forall a, b | 0 <= a < b < |r|
      ensures key2(r[a]) != key2(r[b])
    {
      if i == -1 {
        if b == |s| { assert r[b] == x && r[a] == s[a]; }
        else { assert r[a] == s[a] && r[b] == s[b]; }
      } else if a == i {
        assert r[a] == x && r[b] == s[b];
      } else if b == i {
        assert r[b] == x && r[a] == s[a];
      } else {
        assert r[a] == s[a] && r[b] == s[b];
      }
    }
  }

  /** A second upsert on the same key overrides the first. */
  lemma UpsertSameKey<T, K>(s: seq<T>, x: T, y: T, key: T -> K)
    requires key(x) == key(y)
    ensures Upsert(Upsert(s, x, key), y, key) == Upsert(s, y, key)
  {
    var i := IndexOf(s, key, key(x));
    var t := Upsert(s, x, key);
    if i == -1 {
      IndexOfFirst(t, key, key(y), |s|);
    } else {
      IndexOfFirst(t, key, key(y), i);
    }
  }

  /** After pushing `x`, a lookup of its key finds `x` exactly when no earlier entry had that key. */
  lemma {:induction false} FindByAppend<T, K>(s: seq<T>, x: T, key: T -> K)
    ensures FindBy(s + [x], key, key(x)) ==
      if FindBy(s, key, key(x)).Some? then FindBy(s, key, key(x)) else Some(x)
  {
    var i := IndexOf(s, key, key(x));
    var t := s + [x];
    if i == -1 {
      IndexOfFirst(t, key, key(x), |s|);
    } else {
      IndexOfFirst(t, key, key(x), i);
    }
  }

  /**
   * When no entry of `s` has `key2`-value `k`, and `x` has it, then after an
   * upsert of `x` under any key, `x` is what a lookup of `k` under `key2` finds.
   */
  lemma FindByAfterUpsert<T, K, L>(s: seq<T>, x: T, key: T -> K, key2: T -> L, k: L)
    requires FindBy(s, key2, k).None? && key2(x) == k
    ensures FindBy(Upsert(s, x, key), key2, k) == Some(x)
  {
    var r := Upsert(s, x, key);
    var w := FindBy(r, key2, k);
    assert x in r;
    assert w.Some?;
  }
}
