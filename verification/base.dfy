/**
 * Small building blocks shared by the local store and the remote service:
 * optional values, results, and the newest-first ordering both of them
 * use when listing posts.
 */
module Base {

  datatype Option<T> = None | Some(value: T)

  datatype Result<T, E> = Success(value: T) | Failure(error: E)

  /** `s` lists its elements newest first: the time stamp never increases along `s`. */
  predicate NewestFirst<T>(s: seq<T>, stamp: T -> int)
  {
    forall i, j :: 0 <= i < j < |s| ==> stamp(s[i]) >= stamp(s[j])
  }

  /** No two elements of `s` share a key. */
  predicate DistinctKeys<T>(s: seq<T>, key: T -> string)
  {
    forall i, j :: 0 <= i < j < |s| ==> key(s[i]) != key(s[j])
  }

  /**
   * Inserts `x` into a newest-first sequence, in front of the elements
   * stamped no later than it (so an earlier element stays ahead of a later
   * one with the same stamp).
   */
  function InsertNewest<T>(x: T, s: seq<T>, stamp: T -> int): (r: seq<T>)
    requires NewestFirst(s, stamp)
    ensures NewestFirst(r, stamp)
    ensures multiset(r) == multiset(s) + multiset{x}
    decreases |s|
  {
    if s == [] || stamp(x) >= stamp(s[0]) then
      [x] + s
    else
      var rest := InsertNewest(x, s[1..], stamp);
      assert s == [s[0]] + s[1..];
      BoundsInsertion(s[0], x, s[1..], rest, stamp);
      [s[0]] + rest
  }

  /**
   * An element stamped no earlier than `x` and than every element of `s`
   * is stamped no earlier than anything in a rearrangement of `s` plus `x`.
   */
  lemma BoundsInsertion<T>(head: T, x: T, s: seq<T>, r: seq<T>, stamp: T -> int)
    requires stamp(head) >= stamp(x)
    requires forall y :: y in s ==> stamp(head) >= stamp(y)
    requires multiset(r) == multiset(s) + multiset{x}
    ensures forall i :: 0 <= i < |r| ==> stamp(head) >= stamp(r[i])
  {
    forall i | 0 <= i < |r| ensures stamp(head) >= stamp(r[i]) {
      assert r[i] in multiset(r);
    }
  }

  /** Sorts `s` newest first; equal stamps keep their relative order. */
  function SortNewest<T>(s: seq<T>, stamp: T -> int): (r: seq<T>)
    ensures NewestFirst(r, stamp)
    ensures multiset(r) == multiset(s)
    decreases |s|
  {
    if s == [] then []
    else
      assert s == [s[0]] + s[1..];
      InsertNewest(s[0], SortNewest(s[1..], stamp), stamp)
  }

  /** Inserting an element whose key is new keeps the keys distinct. */
  lemma {:induction false} InsertNewestKeepsDistinct<T>(x: T, s: seq<T>, stamp: T -> int, key: T -> string)
    requires NewestFirst(s, stamp) && DistinctKeys(s, key)
    requires forall y :: y in s ==> key(y) != key(x)
    ensures DistinctKeys(InsertNewest(x, s, stamp), key)
    decreases |s|
  {
    if s == [] || stamp(x) >= stamp(s[0]) {
    } else {
      var rest := InsertNewest(x, s[1..], stamp);
      InsertNewestKeepsDistinct(x, s[1..], stamp, key);
      forall y | y in rest ensures key(y) != key(s[0]) {
        assert y in multiset(rest);
        if y != x {
          var j :| 0 <= j < |s[1..]| && s[1..][j] == y;
          assert s[j + 1] == y;
        }
      }
    }
  }

  /** A sequence with distinct keys drawn from `keys` is no longer than `keys`. */
  lemma {:induction false} DistinctKeysBound<T>(s: seq<T>, key: T -> string, keys: set<string>)
    requires DistinctKeys(s, key)
    requires forall y :: y in s ==> key(y) in keys
    ensures |s| <= |keys|
    decreases |s|
  {
    if s != [] {
      var rest := keys - {key(s[0])};
      forall y | y in s[1..] ensures key(y) in rest {
        var j :| 0 <= j < |s[1..]| && s[1..][j] == y;
        assert s[j + 1] == y;
      }
      DistinctKeysBound(s[1..], key, rest);
    }
  }
}
