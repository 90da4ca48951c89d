/**
 * HashMap<HashKey, HashData> and Cache<CacheKey, CacheData>: a bucket array of key/data pairs
 * where a key lives in bucket `k() % numBuckets`, and a direct-mapped cache with one slot per index.
 * A key class's `()` and `==` are the constant fields `hash` and `eq`.
 */
module HashMapModel {
  import opened Buckets
  import opened Wrappers

  /** A pair is filed under its key. */
  function Key<K, D>(e: (K, D)): K
  {
    e.0
  }

  class HashMap<K(==, !new), D(!new)> {
    const eq: (K, K) -> bool
    const hash: K -> nat
    var numBuckets: nat
    var buckets: array<seq<(K, D)>>

    ghost predicate Valid()
      reads this, buckets
    {
      && KeyContract(eq, hash)
      && buckets.Length == numBuckets
      && Placed(buckets[..], Key, hash)
      && Distinct(buckets[..], Key, eq)
    }

    /** Every stored pair, in iteration order. */
    ghost function Entries(): seq<(K, D)>
      reads this, buckets
    {
      Flatten(buckets[..])
    }

    /** Some stored key is `==` to k. */
    ghost predicate Stored(k: K)
      reads this, buckets
    {
      StoredIn(buckets[..], Key, eq, k)
    }

    /** A stored key is `==` to k and its pair carries d. */
    ghost predicate MapsTo(k: K, d: D)
      reads this, buckets
    {
      exists e :: OnlyEntry(buckets[..], Key, eq, k, e) && eq(e.0, k) && e.1 == d
    }

    /** A key maps to at most one datum, so a `query` after `update(k, d)` yields d. */
    lemma MapsToUnique(k: K, d1: D, d2: D)
      requires MapsTo(k, d1) && MapsTo(k, d2)
      ensures d1 == d2
    {
      var e1 :| OnlyEntry(buckets[..], Key, eq, k, e1) && eq(e1.0, k) && e1.1 == d1;
      var e2 :| OnlyEntry(buckets[..], Key, eq, k, e2) && eq(e2.0, k) && e2.1 == d2;
      assert Key(e2) == e2.0;
    }

    /** `bucketNum(k)`: the only bucket in which k can be stored. */
    function BucketNum(k: K): nat
      reads this
      requires numBuckets > 0
    {
      hash(k) % numBuckets
    }

    constructor (b: nat, eq: (K, K) -> bool, hash: K -> nat)
      requires KeyContract(eq, hash)
      ensures Valid() && fresh(buckets)
      ensures this.eq == eq && this.hash == hash
      ensures numBuckets == b && forall i :: 0 <= i < b ==> buckets[i] == []
      ensures Entries() == []
    {
      this.eq := eq;
      this.hash := hash;
      numBuckets := b;
      buckets := new seq<(K, D)>[b](_ => []);
      new;
      FlattenEmptyRun(buckets[..], 0, b);
      assert buckets[..] == buckets[..][..b];
    }

    /** `init(b)`: drop the old buckets and start with b empty ones. */
    method Init(b: nat)
      requires KeyContract(eq, hash)
      modifies this
      ensures Valid() && fresh(buckets)
      ensures numBuckets == b && forall i :: 0 <= i < b ==> buckets[i] == []
    {
      Reset();
      numBuckets := b;
      buckets := new seq<(K, D)>[b](_ => []);
    }

    /** `reset()`: no buckets at all. */
    method Reset()
      requires KeyContract(eq, hash)
      modifies this
      ensures Valid() && fresh(buckets)
      ensures numBuckets == 0 && Entries() == []
    {
      numBuckets := 0;
      buckets := new seq<(K, D)>[0];
    }

    /** `clear()`: every bucket emptied, the number of buckets kept. */
    method Clear()
      requires Valid()
      modifies buckets
      ensures Valid()
      ensures forall i :: 0 <= i < numBuckets ==> buckets[i] == []
      ensures Entries() == []
    {
      var i := 0;
      while i < numBuckets
        invariant i <= numBuckets
        invariant forall j :: 0 <= j < i ==> buckets[j] == []
        invariant forall j :: i <= j < numBuckets ==> buckets[j] == old(buckets[j])
      {
        buckets[i] := [];
        i := i + 1;
      }
      FlattenEmptyRun(buckets[..], 0, numBuckets);
      assert buckets[..] == buckets[..][..numBuckets];
    }

    /** `size()`: the sum of the bucket lengths, which is the number of stored pairs. */
    method Size() returns (s: nat)
      requires Valid()
      ensures s == |Entries()|
    {
      s := 0;
      var i := 0;
      while i < numBuckets
        invariant i <= numBuckets
        invariant s == |Flatten(buckets[..][..i])|
      {
        FlattenSnoc(buckets[..], i);
        s := s + |buckets[i]|;
        i := i + 1;
      }
      assert buckets[..][..numBuckets] == buckets[..];
    }

    /** `empty()`: `begin() == end()`. */
    method Empty() returns (e: bool)
      requires Valid()
      ensures e <==> Entries() == []
    {
      var it := Begin(buckets[..]);
      e := it == End(buckets[..]);
      if e {
        assert buckets[..][..numBuckets] == buckets[..];
      } else {
        FlattenAt(buckets[..], it.bucketNum, it.node);
      }
    }

    /** `check(k)`: whether some stored key is `==` to k. */
    method Check(k: K) returns (found: bool)
      requires Valid() && numBuckets > 0
      ensures found <==> Stored(k)
    {
      StoredInOwnBucket(buckets[..], Key, eq, hash, k);
      var n := BucketNum(k);
      var b := buckets[n];
      var i := 0;
      while i < |b|
        invariant i <= |b|
        invariant forall j :: 0 <= j < i ==> !eq(b[j].0, k)
      {
        if eq(b[i].0, k) {
          return true;
        }
        i := i + 1;
      }
      found := false;
    }

    /** `query(k, d)`: on a hit, d becomes the data stored with the key `==` to k; on a miss d is unchanged. */
    method Query(k: K, d: D) returns (found: bool, d': D)
      requires Valid() && numBuckets > 0
      ensures found <==> Stored(k)
      ensures found ==> MapsTo(k, d')
      ensures !found ==> d' == d
    {
      StoredInOwnBucket(buckets[..], Key, eq, hash, k);
      var n := BucketNum(k);
      var b := buckets[n];
      var i := 0;
      while i < |b|
        invariant i <= |b|
        invariant forall j :: 0 <= j < i ==> !eq(b[j].0, k)
      {
        if eq(b[i].0, k) {
          OnlyMatch(buckets[..], Key, eq, hash, k, n, i);
          return true, buckets[n][i].1;
        }
        i := i + 1;
      }
      found, d' := false, d;
    }

    /**
     * `update(k, d)`: when a key `==` to k is stored, its data becomes d (the stored key stays) and the
     * result is true; otherwise (k, d) is appended to k's bucket and the result is false.
     */
    method Update(k: K, d: D) returns (existed: bool)
      requires Valid() && numBuckets > 0
      modifies buckets
      ensures Valid()
      ensures existed == old(Stored(k))
      ensures existed ==> (exists j :: 0 <= j < |old(buckets[BucketNum(k)])| && eq(old(buckets[BucketNum(k)])[j].0, k) &&
                                       buckets[..] == old(buckets[..])[BucketNum(k) := old(buckets[BucketNum(k)])[j := (old(buckets[BucketNum(k)])[j].0, d)]])
      ensures !existed ==> buckets[..] == old(buckets[..])[BucketNum(k) := old(buckets[BucketNum(k)]) + [(k, d)]]
      ensures MapsTo(k, d)
      ensures forall e :: e in Entries() && !eq(e.0, k) ==> e in old(Entries())
      ensures forall e :: e in old(Entries()) && !eq(e.0, k) ==> e in Entries()
    {
      var bs := buckets[..];
      StoredInOwnBucket(bs, Key, eq, hash, k);
      var n := BucketNum(k);
      var b := buckets[n];
      var i := 0;
      while i < |b|
        invariant i <= |b|
        invariant forall j :: 0 <= j < i ==> !eq(b[j].0, k)
      {
        if eq(b[i].0, k) {
          var e := (buckets[n][i].0, d);
          ReplaceKeeps(bs, Key, eq, hash, n, i, e);
          buckets[n] := buckets[n][i := e];
          assert buckets[..] == bs[n := bs[n][i := e]];
          forall y | y in Entries() && !eq(y.0, k)
            ensures y in Flatten(bs)
          {
            FlattenReplaced(bs, n, i, e, y);
          }
          forall y | y in Flatten(bs) && !eq(y.0, k)
            ensures y in Entries()
          {
            FlattenKeptReplaced(bs, n, i, e, y);
          }
          return true;
        }
        i := i + 1;
      }
      AppendKeeps(bs, Key, eq, hash, (k, d));
      buckets[n] := buckets[n] + [(k, d)];
      assert buckets[..] == bs[n := bs[n] + [(k, d)]];
      forall y | y in Entries() && !eq(y.0, k)
        ensures y in Flatten(bs)
      {
        FlattenAppended(bs, n, (k, d), y);
      }
      forall y | y in Flatten(bs) && !eq(y.0, k)
        ensures y in Entries()
      {
        FlattenKeptAppended(bs, n, (k, d), y);
      }
      existed := false;
    }

    /** `insert(k, d)`: false and no change when a key `==` to k is stored; otherwise (k, d) is appended to k's bucket. */
    method Insert(k: K, d: D) returns (ok: bool)
      requires Valid() && numBuckets > 0
      modifies buckets
      ensures Valid()
      ensures ok == !old(Stored(k))
      ensures buckets[..] == if ok then old(buckets[..])[BucketNum(k) := old(buckets[BucketNum(k)]) + [(k, d)]]
                             else old(buckets[..])
      ensures multiset(Entries()) == old(multiset(Entries())) + if ok then multiset{(k, d)} else multiset{}
      ensures |Entries()| == old(|Entries()|) + if ok then 1 else 0
      ensures ok ==> MapsTo(k, d)
    {
      var bs := buckets[..];
      StoredInOwnBucket(bs, Key, eq, hash, k);
      var n := BucketNum(k);
      var b := buckets[n];
      var i := 0;
      while i < |b|
        invariant i <= |b|
        invariant forall j :: 0 <= j < i ==> !eq(b[j].0, k)
      {
        if eq(b[i].0, k) {
          return false;
        }
        i := i + 1;
      }
      AppendAt(bs, Key, eq, hash, (k, d));
      buckets[n] := b + [(k, d)];
      assert buckets[..] == bs[n := bs[n] + [(k, d)]];
      ok := true;
    }

    /**
     * `remove(k)`: when a key `==` to k is stored, its pair is overwritten by the last pair of the
     * bucket and the bucket shrinks by one; the result says whether anything was removed.
     */
    method Remove(k: K) returns (ok: bool)
      requires Valid() && numBuckets > 0
      modifies buckets
      ensures Valid()
      ensures ok == old(Stored(k))
      ensures !Stored(k)
      ensures ok ==> (exists j :: 0 <= j < |old(buckets[BucketNum(k)])| && eq(old(buckets[BucketNum(k)])[j].0, k) &&
                                  buckets[..] == old(buckets[..])[BucketNum(k) := SwapWithLast(old(buckets[BucketNum(k)]), j)] &&
                                  multiset(Entries()) == old(multiset(Entries())) - multiset{old(buckets[BucketNum(k)])[j]})
      ensures !ok ==> buckets[..] == old(buckets[..])
      ensures |Entries()| == old(|Entries()|) - if ok then 1 else 0
    {
      var bs := buckets[..];
      StoredInOwnBucket(bs, Key, eq, hash, k);
      var n := BucketNum(k);
      var b := buckets[n];
      var i := 0;
      while i < |b|
        invariant i <= |b|
        invariant forall j :: 0 <= j < i ==> !eq(b[j].0, k)
      {
        if eq(b[i].0, k) {
          var s := SwapWithLast(b, i);
          RemoveAt(bs, Key, eq, hash, k, i);
          buckets[n] := s;
          assert buckets[..] == bs[n := s];
          assert eq(b[i].0, k) && multiset(Entries()) == multiset(Flatten(bs)) - multiset{b[i]};
          return true;
        }
        i := i + 1;
      }
      ok := false;
    }
  }

  /** Cache<CacheKey, CacheData>: `size` slots; key k can only sit in slot `k() % size`. */
  class Cache<K(==, 0, !new), D(0)> {
    const eq: (K, K) -> bool
    const hash: K -> nat
    var size: nat
    var cache: array<(K, D)>

    ghost predicate Valid()
      reads this
    {
      KeyContract(eq, hash) && cache.Length == size
    }

    function Slot(k: K): nat
      reads this
      requires size > 0
    {
      hash(k) % size
    }

    /** What `read(k, ·)` finds: the data of k's slot when the key there is `==` to k. */
    ghost function Cached(k: K): Option<D>
      reads this, cache
      requires Valid() && size > 0
    {
      if eq(k, cache[Slot(k)].0) then Some(cache[Slot(k)].1) else None
    }

    /** `Cache()` / `Cache(s)`: s default-constructed slots. */
    constructor (s: nat, eq: (K, K) -> bool, hash: K -> nat)
      requires KeyContract(eq, hash)
      ensures Valid() && fresh(cache) && size == s
      ensures this.eq == eq && this.hash == hash
    {
      this.eq := eq;
      this.hash := hash;
      size := s;
      cache := new (K, D)[s];
    }

    /** `init(s)`: reset, then s fresh default-constructed slots. */
    method Init(s: nat)
      requires Valid()
      modifies this
      ensures Valid() && fresh(cache) && size == s
    {
      Reset();
      size := s;
      cache := new (K, D)[s];
    }

    /** `reset()`: no slots. */
    method Reset()
      requires Valid()
      modifies this
      ensures Valid() && size == 0
    {
      size := 0;
      cache := new (K, D)[0];
    }

    /** `read(k, d)`: a hit when k's slot holds a key `==` to k, and then d becomes that slot's data. */
    method Read(k: K, d: D) returns (hit: bool, d': D)
      requires Valid() && size > 0
      ensures hit <==> Cached(k).Some?
      ensures d' == if hit then Cached(k).value else d
    {
      var i := hash(k) % size;
      if eq(k, cache[i].0) {
        return true, cache[i].1;
      }
      hit, d' := false, d;
    }

    /** `write(k, d)`: k's slot is overwritten with (k, d), whatever it held. */
    method Write(k: K, d: D)
      requires Valid() && size > 0
      modifies cache
      ensures Valid()
      ensures cache[..] == old(cache[..])[Slot(k) := (k, d)]
      ensures Cached(k) == Some(d)
      ensures forall k' :: Slot(k') == Slot(k) && !eq(k', k) ==> Cached(k') == None
    {
      var i := hash(k) % size;
      cache[i] := (k, d);
    }
  }
}
