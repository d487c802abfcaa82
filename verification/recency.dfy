/**
 * A bounded most-recent-first list: touching an element moves it to the front,
 * drops any earlier entry with the same key, and keeps at most `cap` entries
 * (`[x, ...list.filter(y => key(y) !== key(x))].slice(0, cap)`). The recently
 * viewed products (keyed by id, 10 entries) and the recent mobile searches
 * (keyed by the string itself, 5 entries) are both this list.
 */
module Recency {
  import opened Seqs

  function Touch<T(==), K(==)>(list: seq<T>, x: T, key: T -> K, cap: nat): seq<T> {
    Take([x] + Without(list, key(x), key), cap)
  }

  /** `list.filter(y => key(y) !== k)`. */
  function Without<T(==), K(==)>(list: seq<T>, k: K, key: T -> K): seq<T> {
    Filter(list, (y: T) => key(y) != k)
  }

  /** Any predicate that says "key differs from k" filters the same way. */
  lemma WithoutIsFilter<T, K>(list: seq<T>, k: K, key: T -> K, f: T -> bool)
    requires forall i :: 0 <= i < |list| ==> f(list[i]) == (key(list[i]) != k)
    ensures Without(list, k, key) == Filter(list, f)
  {
    FilterExt(list, (y: T) => key(y) != k, f);
  }

  /** No key occurs twice. */
  ghost predicate DistinctKeys<T, K>(list: seq<T>, key: T -> K) {
    forall i, j :: 0 <= i < j < |list| ==> key(list[i]) != key(list[j])
  }

  /**
   * After a touch the element is at the front, its key occurs nowhere else, there are
   * at most `cap` entries, and the rest are the earlier entries with that key dropped,
   * in their earlier order, cut to `cap - 1`.
   */
  lemma TouchProperties<T, K>(list: seq<T>, x: T, key: T -> K, cap: nat)
    requires cap >= 1
    ensures var r := Touch(list, x, key, cap);
      && |r| <= cap && r != [] && r[0] == x
      && (forall i :: 1 <= i < |r| ==> key(r[i]) != key(x))
      && r[1..] == Take(Without(list, key(x), key), cap - 1)
      && IsSubsequence(r[1..], list)
  {
    var f := (y: T) => key(y) != key(x);
    assert Without(list, key(x), key) == Filter(list, f);
    var rest := Filter(list, f);
    var r := Touch(list, x, key, cap);
    assert r[1..] == Take(rest, cap - 1);
    forall i | 1 <= i < |r| ensures key(r[i]) != key(x) {
      assert r[i] == rest[i - 1];
      assert f(rest[i - 1]);
    }
    FilterIsSubsequence(list, f);
    TakeIsSubsequence(rest, list, cap - 1);
  }

  /** A touch keeps a list with distinct keys distinct. */
  lemma TouchKeepsDistinct<T, K>(list: seq<T>, x: T, key: T -> K, cap: nat)
    requires DistinctKeys(list, key)
    ensures DistinctKeys(Touch(list, x, key, cap), key)
  {
    var f := (y: T) => key(y) != key(x);
    var rest := Filter(list, f);
    var t := [x] + rest;
    FilterIsSubsequence(list, f);
    SubsequenceKeepsDistinct(rest, list, key);
    forall i, j | 0 <= i < j < |t| ensures key(t[i]) != key(t[j]) {
      if i == 0 {
        assert t[j] == rest[j - 1] && f(rest[j - 1]);
      } else {
        assert t[i] == rest[i - 1] && t[j] == rest[j - 1];
      }
    }
  }

  lemma {:induction false} SubsequenceKeepsDistinct<T, K>(a: seq<T>, b: seq<T>, key: T -> K)
    requires IsSubsequence(a, b) && DistinctKeys(b, key)
    ensures DistinctKeys(a, key)
    decreases |b|
  {
    if a != [] {
      var b' := b[..|b| - 1];
      if a[|a| - 1] == b[|b| - 1] {
        var a' := a[..|a| - 1];
        SubsequenceKeepsDistinct(a', b', key);
        forall i | 0 <= i < |a'| ensures key(a'[i]) != key(a[|a| - 1]) {
          SubsequenceIndex(a', b', i);
        }
        forall i, j | 0 <= i < j < |a| ensures key(a[i]) != key(a[j]) {
          if j < |a| - 1 { assert a[i] == a'[i] && a[j] == a'[j]; }
        }
      } else {
        SubsequenceKeepsDistinct(a, b', key);
      }
    }
  }

  lemma {:induction false} SubsequenceIndex<T>(a: seq<T>, b: seq<T>, i: int)
    requires IsSubsequence(a, b) && 0 <= i < |a|
    ensures exists j :: 0 <= j < |b| && b[j] == a[i]
    decreases |b|
  {
    var b' := b[..|b| - 1];
    if a[|a| - 1] == b[|b| - 1] {
      if i < |a| - 1 {
        SubsequenceIndex(a[..|a| - 1], b', i);
        var j :| 0 <= j < |b'| && b'[j] == a[i];
        assert b[j] == a[i];
      } else {
        assert b[|b| - 1] == a[i];
      }
    } else {
      SubsequenceIndex(a, b', i);
      var j :| 0 <= j < |b'| && b'[j] == a[i];
      assert b[j] == a[i];
    }
  }

  /** Touching the same element twice in a row gives the list touching it once gives. */
  lemma TouchIdempotent<T, K>(list: seq<T>, x: T, key: T -> K, cap: nat)
    requires cap >= 1
    ensures Touch(Touch(list, x, key, cap), x, key, cap) == Touch(list, x, key, cap)
  {
    var f := (y: T) => key(y) != key(x);
    var r := Touch(list, x, key, cap);
    TouchProperties(list, x, key, cap);
    var tail := r[1..];
    assert r == [x] + tail;
    FilterCons(x, tail, f);
    forall i | 0 <= i < |tail| ensures f(tail[i]) {
      assert tail[i] == r[i + 1];
    }
    FilterAll(tail, f);
    assert Filter(r, f) == tail;
  }
}
