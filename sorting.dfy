/**
 * `std::sort` with a less-than on a numeric key, as the circuit package uses it: fanouts by
 * consumer id, FEC group members by gate id, FEC groups by their first member's id.
 */
module Sorting {

  ghost predicate SortedBy<T>(s: seq<T>, key: T -> nat)
  {
    forall i, j :: 0 <= i < j < |s| ==> key(s[i]) <= key(s[j])
  }

  /** A sorted sequence stays sorted with an element in front whose key is no larger than any of its keys. */
  lemma ConsSorted<T>(y: T, t: seq<T>, key: T -> nat)
    requires SortedBy(t, key) && forall k :: 0 <= k < |t| ==> key(y) <= key(t[k])
    ensures SortedBy([y] + t, key)
  {
    var r := [y] + t;
    forall i, j | 0 <= i < j < |r|
      ensures key(r[i]) <= key(r[j])
    {
      assert r[j] == t[j - 1];
      if i > 0 {
        assert r[i] == t[i - 1];
      }
    }
  }

  /** A lower bound on the keys of t and on x's key bounds the keys of any arrangement of t and x. */
  lemma BelowAll<T>(y: T, t: seq<T>, x: T, rest: seq<T>, key: T -> nat)
    requires multiset(rest) == multiset(t) + multiset{x}
    requires key(y) <= key(x) && forall k :: 0 <= k < |t| ==> key(y) <= key(t[k])
    ensures forall k :: 0 <= k < |rest| ==> key(y) <= key(rest[k])
  {
    forall k | 0 <= k < |rest|
      ensures key(y) <= key(rest[k])
    {
      assert rest[k] in multiset(rest);
      if rest[k] != x {
        assert rest[k] in multiset(t);
        var j :| 0 <= j < |t| && t[j] == rest[k];
      }
    }
  }

  /** x placed in front of the first element of the sorted s whose key exceeds x's. */
  function InsertBy<T>(x: T, s: seq<T>, key: T -> nat): (r: seq<T>)
    requires SortedBy(s, key)
    ensures SortedBy(r, key)
    ensures multiset(r) == multiset(s) + multiset{x}
    ensures |r| == |s| + 1
  {
    if s == [] || key(x) <= key(s[0]) then
      ConsSorted(x, s, key);
      [x] + s
    else
      var t := s[1..];
      assert s == [s[0]] + t;
      var rest := InsertBy(x, t, key);
      BelowAll(s[0], t, x, rest, key);
      ConsSorted(s[0], rest, key);
      [s[0]] + rest
  }

  /** The elements of s in nondecreasing key order: a sorted permutation of s. */
  function SortBy<T>(s: seq<T>, key: T -> nat): (r: seq<T>)
    ensures SortedBy(r, key)
    ensures multiset(r) == multiset(s)
    ensures |r| == |s|
  {
    if s == [] then
      []
    else
      assert s == [s[0]] + s[1..];
      InsertBy(s[0], SortBy(s[1..], key), key)
  }
}
