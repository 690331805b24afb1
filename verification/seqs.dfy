/**
 * The two array combinators the services are built from: `Array.prototype.filter`
 * and `Array.prototype.map`, as recursive functions over sequences, with the facts
 * about them that the service lemmas rely on.
 */
module Seqs {

  /** The elements of `s` for which `keep` holds, in their original order. */
  function Filter<T>(s: seq<T>, keep: T -> bool): (r: seq<T>)
    ensures |r| <= |s|
    ensures forall i :: 0 <= i < |r| ==> r[i] in s && keep(r[i])
    ensures forall i :: 0 <= i < |s| && keep(s[i]) ==> s[i] in r
  {
    if s == [] then []
    else if keep(s[0]) then [s[0]] + Filter(s[1..], keep)
    else Filter(s[1..], keep)
  }

  /** `f` applied to every element of `s`, position by position. */
  function Map<T, U>(s: seq<T>, f: T -> U): (r: seq<U>)
    ensures |r| == |s|
    ensures forall i :: 0 <= i < |s| ==> r[i] == f(s[i])
  {
    if s == [] then [] else [f(s[0])] + Map(s[1..], f)
  }

  /** Filtering distributes over concatenation: the filter keeps relative order. */
  lemma {:induction false} FilterConcat<T>(a: seq<T>, b: seq<T>, keep: T -> bool)
    ensures Filter(a + b, keep) == Filter(a, keep) + Filter(b, keep)
  {
    if a == [] {
      assert a + b == b;
    } else {
      assert (a + b)[0] == a[0] && (a + b)[1..] == a[1..] + b;
      FilterConcat(a[1..], b, keep);
    }
  }

  /** Mapping distributes over concatenation. */
  lemma MapConcat<T, U>(a: seq<T>, b: seq<T>, f: T -> U)
    ensures Map(a + b, f) == Map(a, f) + Map(b, f)
  {
  }

  /** Filtering keeps every kept element with its multiplicity and drops the others. */
  lemma {:induction false} FilterCount<T>(s: seq<T>, keep: T -> bool, x: T)
    ensures multiset(Filter(s, keep))[x] == if keep(x) then multiset(s)[x] else 0
  {
    if s != [] {
      FilterCount(s[1..], keep, x);
      assert s == [s[0]] + s[1..];
    }
  }

  /** Filtering twice by the same predicate is filtering once. */
  lemma {:induction false} FilterIdempotent<T>(s: seq<T>, keep: T -> bool)
    ensures Filter(Filter(s, keep), keep) == Filter(s, keep)
  {
    if s != [] {
      FilterIdempotent(s[1..], keep);
      if keep(s[0]) {
        assert Filter(s, keep) == [s[0]] + Filter(s[1..], keep);
        assert ([s[0]] + Filter(s[1..], keep))[1..] == Filter(s[1..], keep);
      }
    }
  }

  /** When `keep` holds everywhere the filter is the identity. */
  lemma {:induction false} FilterKeepsAll<T>(s: seq<T>, keep: T -> bool)
    requires forall i :: 0 <= i < |s| ==> keep(s[i])
    ensures Filter(s, keep) == s
  {
    if s != [] {
      FilterKeepsAll(s[1..], keep);
      assert s == [s[0]] + s[1..];
    }
  }

  /** Elements at distinct positions have distinct keys. */
  ghost predicate DistinctKeys<T, K>(s: seq<T>, key: T -> K) {
    forall i, j :: 0 <= i < j < |s| ==> key(s[i]) != key(s[j])
  }

  /** A filter of a list with distinct keys has distinct keys. */
  lemma {:induction false} FilterKeepsDistinct<T, K>(s: seq<T>, keep: T -> bool, key: T -> K)
    requires DistinctKeys(s, key)
    ensures DistinctKeys(Filter(s, keep), key)
  {
    if s != [] {
      var tail := Filter(s[1..], keep);
      FilterKeepsDistinct(s[1..], keep, key);
      if keep(s[0]) {
        var r := [s[0]] + tail;
        forall i, j | 0 <= i < j < |r| ensures key(r[i]) != key(r[j]) {
          if i == 0 {
            assert r[j] in s[1..];
            var k :| 0 <= k < |s[1..]| && s[1..][k] == r[j];
            assert s[k + 1] == r[j];
          } else {
            assert r[i] == tail[i - 1] && r[j] == tail[j - 1];
          }
        }
      }
    }
  }

  // ----- Removal by key -----

  /** Some element of `s` has key `k`: `s.some(x => key(x) === k)`. */
  predicate HasKey<T>(s: seq<T>, key: T -> int, k: int) {
    exists i :: 0 <= i < |s| && key(s[i]) == k
  }

  function KeyOtherThan<T>(key: T -> int, k: int): T -> bool {
    (x: T) => key(x) != k
  }

  /** `s.filter(x => key(x) !== k)`: the elements whose key differs from `k`. */
  function WithoutKey<T>(s: seq<T>, key: T -> int, k: int): (r: seq<T>)
    ensures !HasKey(r, key, k)
    ensures forall i :: 0 <= i < |s| && key(s[i]) != k ==> s[i] in r
    ensures forall i :: 0 <= i < |r| ==> r[i] in s
  {
    Filter(s, KeyOtherThan(key, k))
  }

  /**
   * Removal keeps the other elements in their order (it distributes over
   * concatenation), removing twice is removing once, removing an absent key
   * changes nothing, and distinct keys stay distinct.
   */
  lemma WithoutKeyLaws<T>(s: seq<T>, key: T -> int, k: int, a: seq<T>, b: seq<T>)
    ensures WithoutKey(a + b, key, k) == WithoutKey(a, key, k) + WithoutKey(b, key, k)
    ensures WithoutKey(WithoutKey(s, key, k), key, k) == WithoutKey(s, key, k)
    ensures !HasKey(s, key, k) ==> WithoutKey(s, key, k) == s
    ensures DistinctKeys(s, key) ==> DistinctKeys(WithoutKey(s, key, k), key)
  {
    FilterConcat(a, b, KeyOtherThan(key, k));
    FilterIdempotent(s, KeyOtherThan(key, k));
    if !HasKey(s, key, k) {
      FilterKeepsAll(s, KeyOtherThan(key, k));
    }
    if DistinctKeys(s, key) {
      FilterKeepsDistinct(s, KeyOtherThan(key, k), key);
    }
  }

  /** With distinct keys, removing a present key removes exactly one element. */
  lemma {:induction false} WithoutPresentDistinctKey<T>(s: seq<T>, key: T -> int, k: int)
    requires DistinctKeys(s, key) && HasKey(s, key, k)
    ensures |WithoutKey(s, key, k)| == |s| - 1
  {
    var rest := s[1..];
    assert DistinctKeys(rest, key) by {
      forall i, j | 0 <= i < j < |rest| ensures key(rest[i]) != key(rest[j]) {
        assert rest[i] == s[i + 1] && rest[j] == s[j + 1];
      }
    }
    if key(s[0]) == k {
      forall i | 0 <= i < |rest| ensures KeyOtherThan(key, k)(rest[i]) {
        assert rest[i] == s[i + 1];
      }
      FilterKeepsAll(rest, KeyOtherThan(key, k));
    } else {
      var p :| 0 <= p < |s| && key(s[p]) == k;
      assert rest[p - 1] == s[p];
      WithoutPresentDistinctKey(rest, key, k);
    }
  }
}
