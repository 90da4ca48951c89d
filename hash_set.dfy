/**
 * HashSet<Data>: a bucket array of elements where an element d lives in bucket `d() % numBuckets`.
 * The element class's `()` and `==` are the constant fields `hash` and `eq`.
 */
module HashSetModel {
  import opened Buckets

  /** An element is filed under itself. */
  function Self<T>(x: T): T
  {
    x
  }

  class HashSet<T(==, !new)> {
    const eq: (T, T) -> bool
    const hash: T -> nat
    var numBuckets: nat
    var buckets: array<seq<T>>

    ghost predicate Valid()
      reads this, buckets
    {
      && KeyContract(eq, hash)
      && buckets.Length == numBuckets
      && Placed(buckets[..], Self, hash)
      && Distinct(buckets[..], Self, eq)
    }

    /** Every stored element, in iteration order. */
    ghost function Elements(): seq<T>
      reads this, buckets
    {
      Flatten(buckets[..])
    }

    /** Some stored element is `==` to d. */
    ghost predicate Stored(d: T)
      reads this, buckets
    {
      StoredIn(buckets[..], Self, eq, d)
    }

    /** `bucketNum(d)`: the only bucket in which d can be stored. */
    function BucketNum(d: T): nat
      reads this
      requires numBuckets > 0
    {
      hash(d) % numBuckets
    }

    /** The set never holds two `==` elements, in one bucket or in two. */
    lemma NoTwoEqual(x: T, y: T)
      requires Valid()
      requires x in Elements() && y in Elements() && eq(x, y)
      ensures x == y
    {
      FlattenMember(buckets[..], x);
      var n :| 0 <= n < numBuckets && x in buckets[..][n];
      var i :| 0 <= i < |buckets[n]| && buckets[n][i] == x;
      OnlyMatch(buckets[..], Self, eq, hash, x, n, i);
      assert Self(y) == y;
    }

    /** `HashSet(b)`: b empty buckets (none when b is 0). */
    constructor (b: nat, eq: (T, T) -> bool, hash: T -> nat)
      requires KeyContract(eq, hash)
      ensures Valid() && fresh(buckets)
      ensures this.eq == eq && this.hash == hash
      ensures numBuckets == b && forall i :: 0 <= i < b ==> buckets[i] == []
    {
      this.eq := eq;
      this.hash := hash;
      numBuckets := b;
      buckets := new seq<T>[b](_ => []);
    }

    /** `init(b)`: b fresh empty buckets (the old ones are not released first). */
    method Init(b: nat)
      requires KeyContract(eq, hash)
      modifies this
      ensures Valid() && fresh(buckets)
      ensures numBuckets == b && forall i :: 0 <= i < b ==> buckets[i] == []
    {
      numBuckets := b;
      buckets := new seq<T>[b](_ => []);
    }

    /** `reset()`: no buckets at all. */
    method Reset()
      requires KeyContract(eq, hash)
      modifies this
      ensures Valid() && fresh(buckets)
      ensures numBuckets == 0 && Elements() == []
    {
      numBuckets := 0;
      buckets := new seq<T>[0];
    }

    /** `clear()`: every bucket emptied, the number of buckets kept. */
    method Clear()
      requires Valid()
      modifies buckets
      ensures Valid()
      ensures forall i :: 0 <= i < numBuckets ==> buckets[i] == []
      ensures Elements() == []
    {
      var i := 0;
      while i < numBuckets
        invariant i <= numBuckets
        invariant forall j :: 0 <= j < i ==> buckets[j] == []
        invariant forall j :: i <= j < numBuckets ==> buckets[j] == old(buckets[j])
      {
        buckets[i] := [];
        i := i + 1;
      }
      FlattenEmptyRun(buckets[..], 0, numBuckets);
      assert buckets[..] == buckets[..][..numBuckets];
    }

    /** `size()`: the sum of the bucket lengths, which is the number of stored elements. */
    method Size() returns (s: nat)
      requires Valid()
      ensures s == |Elements()|
    {
      s := 0;
      var i := 0;
      while i < numBuckets
        invariant i <= numBuckets
        invariant s == |Flatten(buckets[..][..i])|
      {
        FlattenSnoc(buckets[..], i);
        s := s + |buckets[i]|;
        i := i + 1;
      }
      assert buckets[..][..numBuckets] == buckets[..];
    }

    /** `empty()`: `begin() == end()`. */
    method Empty() returns (e: bool)
      requires Valid()
      ensures e <==> Elements() == []
    {
      var it := Begin(buckets[..]);
      e := it == End(buckets[..]);
      if e {
        assert buckets[..][..numBuckets] == buckets[..];
      } else {
        FlattenAt(buckets[..], it.bucketNum, it.node);
      }
    }

    /** `check(d)`: whether some stored element is `==` to d. */
    method Check(d: T) returns (found: bool)
      requires Valid() && numBuckets > 0
      ensures found <==> Stored(d)
    {
      StoredInOwnBucket(buckets[..], Self, eq, hash, d);
      var n := BucketNum(d);
      var b := buckets[n];
      var i := 0;
      while i < |b|
        invariant i <= |b|
        invariant forall j :: 0 <= j < i ==> !eq(b[j], d)
      {
        if eq(b[i], d) {
          return true;
        }
        i := i + 1;
      }
      found := false;
    }

    /** `query(d)`: on a hit, d is replaced by the stored element `==` to it; on a miss d is untouched. */
    method Query(d: T) returns (found: bool, d': T)
      requires Valid() && numBuckets > 0
      ensures found <==> Stored(d)
      ensures found ==> eq(d', d) && OnlyEntry(buckets[..], Self, eq, d, d')
      ensures !found ==> d' == d
    {
      StoredInOwnBucket(buckets[..], Self, eq, hash, d);
      var n := BucketNum(d);
      var b := buckets[n];
      var i := 0;
      while i < |b|
        invariant i <= |b|
        invariant forall j :: 0 <= j < i ==> !eq(b[j], d)
      {
        if eq(b[i], d) {
          OnlyMatch(buckets[..], Self, eq, hash, d, n, i);
          return true, buckets[n][i];
        }
        i := i + 1;
      }
      found, d' := false, d;
    }

    /**
     * `update(d)`: when an element `==` to d is stored it is overwritten by d and the result is true;
     * otherwise d is appended to its bucket and the result is false.
     */
    method Update(d: T) returns (existed: bool)
      requires Valid() && numBuckets > 0
      modifies buckets
      ensures Valid()
      ensures existed == old(Stored(d))
      ensures existed ==> (exists j :: 0 <= j < |old(buckets[BucketNum(d)])| && eq(old(buckets[BucketNum(d)])[j], d) &&
                                       buckets[..] == old(buckets[..])[BucketNum(d) := old(buckets[BucketNum(d)])[j := d]])
      ensures !existed ==> buckets[..] == old(buckets[..])[BucketNum(d) := old(buckets[BucketNum(d)]) + [d]]
      ensures OnlyEntry(buckets[..], Self, eq, d, d)
    {
      var bs := buckets[..];
      StoredInOwnBucket(bs, Self, eq, hash, d);
      var n := BucketNum(d);
      var b := buckets[n];
      var i := 0;
      while i < |b|
        invariant i <= |b|
        invariant forall j :: 0 <= j < i ==> !eq(b[j], d)
      {
        if eq(b[i], d) {
          ReplaceKeeps(bs, Self, eq, hash, n, i, d);
          buckets[n] := buckets[n][i := d];
          assert buckets[..] == bs[n := bs[n][i := d]];
          return true;
        }
        i := i + 1;
      }
      AppendKeeps(bs, Self, eq, hash, d);
      buckets[n] := buckets[n] + [d];
      assert buckets[..] == bs[n := bs[n] + [d]];
      existed := false;
    }

    /** `insert(d)`: false and no change when an element `==` to d is stored; otherwise d is appended to its bucket. */
    method Insert(d: T) returns (ok: bool)
      requires Valid() && numBuckets > 0
      modifies buckets
      ensures Valid()
      ensures ok == !old(Stored(d))
      ensures buckets[..] == if ok then old(buckets[..])[BucketNum(d) := old(buckets[BucketNum(d)]) + [d]]
                             else old(buckets[..])
      ensures multiset(Elements()) == old(multiset(Elements())) + if ok then multiset{d} else multiset{}
      ensures |Elements()| == old(|Elements()|) + if ok then 1 else 0
      ensures ok ==> OnlyEntry(buckets[..], Self, eq, d, d)
    {
      var bs := buckets[..];
      StoredInOwnBucket(bs, Self, eq, hash, d);
      var n := BucketNum(d);
      var b := buckets[n];
      var i := 0;
      while i < |b|
        invariant i <= |b|
        invariant forall j :: 0 <= j < i ==> !eq(b[j], d)
      {
        if eq(b[i], d) {
          return false;
        }
        i := i + 1;
      }
      AppendAt(bs, Self, eq, hash, d);
      buckets[n] := b + [d];
      assert buckets[..] == bs[n := bs[n] + [d]];
      ok := true;
    }

    /**
     * `remove(d)`: when an element `==` to d is stored, it is overwritten by the last element of its
     * bucket and the bucket shrinks by one; the result says whether anything was removed.
     */
    method Remove(d: T) returns (ok: bool)
      requires Valid() && numBuckets > 0
      modifies buckets
      ensures Valid()
      ensures ok == old(Stored(d))
      ensures !Stored(d)
      ensures ok ==> (exists j :: 0 <= j < |old(buckets[BucketNum(d)])| && eq(old(buckets[BucketNum(d)])[j], d) &&
                                  buckets[..] == old(buckets[..])[BucketNum(d) := SwapWithLast(old(buckets[BucketNum(d)]), j)] &&
                                  multiset(Elements()) == old(multiset(Elements())) - multiset{old(buckets[BucketNum(d)])[j]})
      ensures !ok ==> buckets[..] == old(buckets[..])
      ensures |Elements()| == old(|Elements()|) - if ok then 1 else 0
    {
      var bs := buckets[..];
      StoredInOwnBucket(bs, Self, eq, hash, d);
      var n := BucketNum(d);
      var b := buckets[n];
      var i := 0;
      while i < |b|
        invariant i <= |b|
        invariant forall j :: 0 <= j < i ==> !eq(b[j], d)
      {
        if eq(b[i], d) {
          var s := SwapWithLast(b, i);
          RemoveAt(bs, Self, eq, hash, d, i);
          buckets[n] := s;
          assert buckets[..] == bs[n := s];
          assert eq(b[i], d) && multiset(Elements()) == multiset(Flatten(bs)) - multiset{b[i]};
          return true;
        }
        i := i + 1;
      }
      assert !StoredIn(bs, Self, eq, d);
      ok := false;
    }
  }
}
