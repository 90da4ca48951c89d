/**
 * The bucket array shared by HashMap and HashSet: a fixed number of buckets, each a vector of
 * entries, walked by an iterator that holds a bucket number and a position inside the bucket.
 */
module Buckets {

  /** What a key class must provide for hashing: `==` is an equivalence and `()` agrees on equal keys. */
  ghost predicate KeyContract<K(!new)>(eq: (K, K) -> bool, hash: K -> nat)
  {
    && (forall a :: eq(a, a))
    && (forall a, b :: eq(a, b) ==> eq(b, a))
    && (forall a, b, c :: eq(a, b) && eq(b, c) ==> eq(a, c))
    && (forall a, b :: eq(a, b) ==> hash(a) == hash(b))
  }

  /** Every entry of the bucket array, bucket after bucket, in iteration order. */
  function Flatten<T>(b: seq<seq<T>>): seq<T>
  {
    if b == [] then [] else Flatten(b[..|b| - 1]) + b[|b| - 1]
  }

  lemma {:induction false} FlattenAppend<T>(x: seq<seq<T>>, y: seq<seq<T>>)
    ensures Flatten(x + y) == Flatten(x) + Flatten(y)
    decreases |y|
  {
    if y == [] {
      assert x + y == x;
    } else {
      var y' := y[..|y| - 1];
      assert (x + y)[..|x + y| - 1] == x + y';
      FlattenAppend(x, y');
    }
  }

  lemma FlattenSnoc<T>(b: seq<seq<T>>, i: nat)
    requires i < |b|
    ensures Flatten(b[..i + 1]) == Flatten(b[..i]) + b[i]
  {
    assert b[..i + 1][..i] == b[..i];
  }

  /** Skipping empty buckets adds nothing to the walk. */
  lemma {:induction false} FlattenEmptyRun<T>(b: seq<seq<T>>, i: nat, j: nat)
    requires i <= j <= |b|
    requires forall k :: i <= k < j ==> b[k] == []
    ensures Flatten(b[..j]) == Flatten(b[..i])
    decreases j - i
  {
    if i < j {
      FlattenEmptyRun(b, i, j - 1);
      FlattenSnoc(b, j - 1);
    }
  }

  /** The entry at position `node` of bucket `bn` is the element at index |Flatten(b[..bn])| + node of the walk. */
  lemma FlattenAt<T>(b: seq<seq<T>>, bn: nat, node: nat)
    requires bn < |b| && node < |b[bn]|
    ensures |Flatten(b[..bn])| + node < |Flatten(b)|
    ensures Flatten(b)[|Flatten(b[..bn])| + node] == b[bn][node]
  {
    assert b == b[..bn] + [b[bn]] + b[bn + 1..];
    FlattenAppend(b[..bn] + [b[bn]], b[bn + 1..]);
    FlattenAppend(b[..bn], [b[bn]]);
    assert Flatten([b[bn]]) == b[bn] by {
      assert [b[bn]][..0] == [];
    }
  }

  lemma {:induction false} FlattenMember<T>(b: seq<seq<T>>, x: T)
    ensures x in Flatten(b) <==> exists i :: 0 <= i < |b| && x in b[i]
    decreases |b|
  {
    if b != [] {
      var n := |b| - 1;
      var front := b[..n];
      assert Flatten(b) == Flatten(front) + b[n];
      FlattenMember(front, x);
      assert forall i :: 0 <= i < n ==> front[i] == b[i];
    }
  }

  /** Replacing one bucket replaces its entries in the walk's multiset and nothing else. */
  lemma FlattenUpdate<T>(b: seq<seq<T>>, n: nat, x: seq<T>)
    requires n < |b|
    ensures multiset(b[n]) <= multiset(Flatten(b))
    ensures multiset(Flatten(b[n := x])) == multiset(Flatten(b)) - multiset(b[n]) + multiset(x)
    ensures |Flatten(b[n := x])| == |Flatten(b)| - |b[n]| + |x|
  {
    assert b == b[..n] + [b[n]] + b[n + 1..];
    assert b[n := x] == b[..n] + [x] + b[n + 1..];
    FlattenAppend(b[..n] + [b[n]], b[n + 1..]);
    FlattenAppend(b[..n], [b[n]]);
    FlattenAppend(b[..n] + [x], b[n + 1..]);
    FlattenAppend(b[..n], [x]);
    assert [b[n]][..0] == [] && [x][..0] == [];
  }

  /** Writing x into slot i of bucket n adds no entry but x to the walk. */
  lemma FlattenReplaced<T>(b: seq<seq<T>>, n: nat, i: nat, x: T, y: T)
    requires n < |b| && i < |b[n]| && y in Flatten(b[n := b[n][i := x]]) && y != x
    ensures y in Flatten(b)
  {
    FlattenMember(b, y);
    FlattenMember(b[n := b[n][i := x]], y);
    var j :| 0 <= j < |b| && y in b[n := b[n][i := x]][j];
    if j == n {
      var l :| 0 <= l < |b[n][i := x]| && b[n][i := x][l] == y;
      assert y in b[n];
    }
  }

  /** Appending x to bucket n adds no entry but x to the walk. */
  lemma FlattenAppended<T>(b: seq<seq<T>>, n: nat, x: T, y: T)
    requires n < |b| && y in Flatten(b[n := b[n] + [x]]) && y != x
    ensures y in Flatten(b)
  {
    FlattenMember(b, y);
    FlattenMember(b[n := b[n] + [x]], y);
    var j :| 0 <= j < |b| && y in b[n := b[n] + [x]][j];
    if j == n {
      assert y in b[n];
    }
  }

  /** Writing into slot i of bucket n keeps every entry but the one it overwrites. */
  lemma FlattenKeptReplaced<T>(b: seq<seq<T>>, n: nat, i: nat, x: T, y: T)
    requires n < |b| && i < |b[n]| && y in Flatten(b) && y != b[n][i]
    ensures y in Flatten(b[n := b[n][i := x]])
  {
    FlattenMember(b, y);
    FlattenMember(b[n := b[n][i := x]], y);
    var j :| 0 <= j < |b| && y in b[j];
    if j == n {
      var l :| 0 <= l < |b[n]| && b[n][l] == y;
      assert b[n][i := x][l] == y;
    } else {
      assert y in b[n := b[n][i := x]][j];
    }
  }

  /** Appending to bucket n keeps every entry. */
  lemma FlattenKeptAppended<T>(b: seq<seq<T>>, n: nat, x: T, y: T)
    requires n < |b| && y in Flatten(b)
    ensures y in Flatten(b[n := b[n] + [x]])
  {
    FlattenMember(b, y);
    FlattenMember(b[n := b[n] + [x]], y);
    var j :| 0 <= j < |b| && y in b[j];
    assert y in b[n := b[n] + [x]][j];
  }

  /** The bucket after `remove` drops entry j: the last entry overwrites slot j, then the vector shrinks. */
  function SwapWithLast<T>(s: seq<T>, j: nat): (r: seq<T>)
    requires j < |s|
    ensures |r| == |s| - 1
    ensures forall p :: 0 <= p < |r| ==> r[p] == if p == j then s[|s| - 1] else s[p]
  {
    s[j := s[|s| - 1]][..|s| - 1]
  }

  /** SwapWithLast drops exactly the entry at j. */
  lemma SwapWithLastDrops<T>(s: seq<T>, j: nat)
    requires j < |s|
    ensures multiset(SwapWithLast(s, j)) == multiset(s) - multiset{s[j]}
    ensures multiset(s) == multiset(SwapWithLast(s, j)) + multiset{s[j]}
  {
    var last := |s| - 1;
    if j == last {
      assert SwapWithLast(s, j) == s[..last];
      assert s == s[..last] + [s[j]];
    } else {
      SwapWithLastShape(s, j);
      MovedLast(s[..j], s[j], s[j + 1..last], s[last]);
    }
  }

  /** Below the last slot, SwapWithLast keeps the slots around j and puts the last entry at j. */
  lemma SwapWithLastShape<T>(s: seq<T>, j: nat)
    requires j < |s| - 1
    ensures var a, m, y := s[..j], s[j + 1..|s| - 1], s[|s| - 1];
      s == a + [s[j]] + m + [y] && SwapWithLast(s, j) == a + [y] + m
  {
  }

  /** Moving the last element into the place of x drops x. */
  lemma MovedLast<T>(a: seq<T>, x: T, m: seq<T>, y: T)
    ensures multiset(a + [y] + m) == multiset(a + [x] + m + [y]) - multiset{x}
    ensures multiset(a + [x] + m + [y]) == multiset(a + [y] + m) + multiset{x}
  {
    var ma, mm := multiset(a), multiset(m);
    calc {
      multiset(a + [x] + m + [y]);
      multiset(a + [x] + m) + multiset{y};
      multiset(a + [x]) + mm + multiset{y};
      ma + multiset{x} + mm + multiset{y};
    }
    calc {
      multiset(a + [y] + m);
      multiset(a + [y]) + mm;
      ma + multiset{y} + mm;
    }
  }

  /*
   * Bucket invariants, stated once for both containers: an entry x is filed under the key key(x)
   * (the pair's key in a HashMap, the element itself in a HashSet).
   */

  /** Every entry sits in the bucket its key hashes to. */
  ghost predicate Placed<T, K>(bs: seq<seq<T>>, key: T -> K, hash: K -> nat)
  {
    forall i, j :: 0 <= i < |bs| && 0 <= j < |bs[i]| ==> hash(key(bs[i][j])) % |bs| == i
  }

  /** No bucket holds two entries with `==` keys. */
  ghost predicate Distinct<T, K>(bs: seq<seq<T>>, key: T -> K, eq: (K, K) -> bool)
  {
    forall i, j1, j2 :: 0 <= i < |bs| && 0 <= j1 < j2 < |bs[i]| ==> !eq(key(bs[i][j1]), key(bs[i][j2]))
  }

  /** Some entry has a key `==` to k. */
  ghost predicate StoredIn<T, K>(bs: seq<seq<T>>, key: T -> K, eq: (K, K) -> bool, k: K)
  {
    exists x :: x in Flatten(bs) && eq(key(x), k)
  }

  /** x is stored, and it is the only entry whose key is `==` to k. */
  ghost predicate OnlyEntry<T, K>(bs: seq<seq<T>>, key: T -> K, eq: (K, K) -> bool, k: K, x: T)
  {
    x in Flatten(bs) && forall y :: y in Flatten(bs) && eq(key(y), k) ==> y == x
  }

  /** In a placed, distinct bucket array, no two positions of the walk over the first n buckets hold `==` keys. */
  lemma {:induction false} WalkDistinct<T, K(!new)>(bs: seq<seq<T>>, key: T -> K, eq: (K, K) -> bool, hash: K -> nat, n: nat)
    requires KeyContract(eq, hash) && Placed(bs, key, hash) && Distinct(bs, key, eq) && n <= |bs|
    ensures forall l, m :: 0 <= l < m < |Flatten(bs[..n])| ==> !eq(key(Flatten(bs[..n])[l]), key(Flatten(bs[..n])[m]))
    decreases n
  {
    if n > 0 {
      var front := Flatten(bs[..n - 1]);
      WalkDistinct(bs, key, eq, hash, n - 1);
      FlattenSnoc(bs, n - 1);
      var w := Flatten(bs[..n]);
      forall l, m | 0 <= l < m < |w|
        ensures !eq(key(w[l]), key(w[m]))
      {
        if m < |front| {
          assert w[l] == front[l] && w[m] == front[m];
        } else if l >= |front| {
          assert w[l] == bs[n - 1][l - |front|] && w[m] == bs[n - 1][m - |front|];
        } else {
          FlattenMember(bs[..n - 1], front[l]);
          var i :| 0 <= i < n - 1 && front[l] in bs[..n - 1][i];
          var j :| 0 <= j < |bs[i]| && bs[i][j] == front[l];
          assert w[l] == bs[i][j] && w[m] == bs[n - 1][m - |front|];
          assert hash(key(w[l])) % |bs| != hash(key(w[m])) % |bs|;
        }
      }
    }
  }

  /** Whether k is stored is decided by k's own bucket alone. */
  lemma StoredInOwnBucket<T, K(!new)>(bs: seq<seq<T>>, key: T -> K, eq: (K, K) -> bool, hash: K -> nat, k: K)
    requires KeyContract(eq, hash) && |bs| > 0 && Placed(bs, key, hash)
    ensures StoredIn(bs, key, eq, k) <==> exists j :: 0 <= j < |bs[hash(k) % |bs|]| && eq(key(bs[hash(k) % |bs|][j]), k)
  {
    var n := hash(k) % |bs|;
    if StoredIn(bs, key, eq, k) {
      var x :| x in Flatten(bs) && eq(key(x), k);
      FlattenMember(bs, x);
      var i :| 0 <= i < |bs| && x in bs[i];
      var j :| 0 <= j < |bs[i]| && bs[i][j] == x;
      assert hash(key(x)) == hash(k);
    }
    if exists j :: 0 <= j < |bs[n]| && eq(key(bs[n][j]), k) {
      var j :| 0 <= j < |bs[n]| && eq(key(bs[n][j]), k);
      FlattenMember(bs, bs[n][j]);
    }
  }

  /** In a placed, distinct bucket array, an entry whose key is `==` to k is the one at (n, i). */
  lemma OnlyMatch<T, K(!new)>(bs: seq<seq<T>>, key: T -> K, eq: (K, K) -> bool, hash: K -> nat, k: K, n: nat, i: nat)
    requires KeyContract(eq, hash) && Placed(bs, key, hash) && Distinct(bs, key, eq)
    requires n < |bs| && i < |bs[n]| && eq(key(bs[n][i]), k)
    ensures OnlyEntry(bs, key, eq, k, bs[n][i])
  {
    FlattenMember(bs, bs[n][i]);
    forall y | y in Flatten(bs) && eq(key(y), k)
      ensures y == bs[n][i]
    {
      FlattenMember(bs, y);
      var i' :| 0 <= i' < |bs| && y in bs[i'];
      var j :| 0 <= j < |bs[i']| && bs[i'][j] == y;
      assert eq(key(y), key(bs[n][i]));
      assert hash(key(y)) == hash(key(bs[n][i]));
      assert i' == n;
    }
  }

  /** Overwriting the entry at (n, i) with x, whose key is `==` to the old one's, keeps both invariants and leaves x the only match. */
  lemma ReplaceKeeps<T, K(!new)>(bs: seq<seq<T>>, key: T -> K, eq: (K, K) -> bool, hash: K -> nat, n: nat, i: nat, x: T)
    requires KeyContract(eq, hash) && Placed(bs, key, hash) && Distinct(bs, key, eq)
    requires n < |bs| && i < |bs[n]| && eq(key(bs[n][i]), key(x))
    ensures var r := bs[n := bs[n][i := x]];
      Placed(r, key, hash) && Distinct(r, key, eq) && OnlyEntry(r, key, eq, key(x), x)
  {
    var r := bs[n := bs[n][i := x]];
    assert hash(key(bs[n][i])) == hash(key(x));
    assert Placed(r, key, hash);
    forall i', j1, j2 | 0 <= i' < |r| && 0 <= j1 < j2 < |r[i']|
      ensures !eq(key(r[i'][j1]), key(r[i'][j2]))
    {
      if i' == n && j1 == i {
        assert !eq(key(bs[n][i]), key(bs[n][j2]));
      } else if i' == n && j2 == i {
        assert !eq(key(bs[n][j1]), key(bs[n][i]));
      }
    }
    OnlyMatch(r, key, eq, hash, key(x), n, i);
  }

  /** Appending x to its own bucket, when no stored key is `==` to x's, keeps both invariants and leaves x the only match. */
  lemma AppendKeeps<T, K(!new)>(bs: seq<seq<T>>, key: T -> K, eq: (K, K) -> bool, hash: K -> nat, x: T)
    requires KeyContract(eq, hash) && |bs| > 0 && Placed(bs, key, hash) && Distinct(bs, key, eq)
    requires !StoredIn(bs, key, eq, key(x))
    ensures var n := hash(key(x)) % |bs|; var r := bs[n := bs[n] + [x]];
      Placed(r, key, hash) && Distinct(r, key, eq) && OnlyEntry(r, key, eq, key(x), x)
  {
    var n := hash(key(x)) % |bs|;
    var r := bs[n := bs[n] + [x]];
    StoredInOwnBucket(bs, key, eq, hash, key(x));
    assert Placed(r, key, hash);
    forall i, j1, j2 | 0 <= i < |r| && 0 <= j1 < j2 < |r[i]|
      ensures !eq(key(r[i][j1]), key(r[i][j2]))
    {
      if i == n && j2 == |bs[n]| {
        assert !eq(key(bs[n][j1]), key(x));
      }
    }
    var last := |bs[n]|;
    assert r[n][last] == x;
    OnlyMatch(r, key, eq, hash, key(x), n, last);
  }

  /** Replacing k's bucket by SwapWithLast at k's match keeps both invariants and leaves k unstored. */
  lemma RemoveKeeps<T, K(!new)>(bs: seq<seq<T>>, key: T -> K, eq: (K, K) -> bool, hash: K -> nat, k: K, i: nat)
    requires KeyContract(eq, hash) && |bs| > 0 && Placed(bs, key, hash) && Distinct(bs, key, eq)
    requires i < |bs[hash(k) % |bs|]| && eq(key(bs[hash(k) % |bs|][i]), k)
    ensures var n := hash(k) % |bs|; var r := bs[n := SwapWithLast(bs[n], i)];
      Placed(r, key, hash) && Distinct(r, key, eq) && !StoredIn(r, key, eq, k)
  {
    var n := hash(k) % |bs|;
    var b := bs[n];
    var s := SwapWithLast(b, i);
    var r := bs[n := s];
    var last := |b| - 1;
    assert Placed(r, key, hash);
    forall i', j1, j2 | 0 <= i' < |r| && 0 <= j1 < j2 < |r[i']|
      ensures !eq(key(r[i'][j1]), key(r[i'][j2]))
    {
      if i' == n {
        var p1 := if j1 == i then last else j1;
        var p2 := if j2 == i then last else j2;
        if p1 < p2 {
          assert !eq(key(b[p1]), key(b[p2]));
        } else {
          assert !eq(key(b[p2]), key(b[p1]));
        }
      }
    }
    forall j | 0 <= j < |s|
      ensures !eq(key(s[j]), k)
    {
      var p := if j == i then last else j;
      if p < i {
        assert !eq(key(b[p]), key(b[i]));
      } else {
        assert !eq(key(b[i]), key(b[p]));
      }
    }
    StoredInOwnBucket(r, key, eq, hash, k);
  }

  /** Everything appending an unstored entry to its own bucket establishes about the new buckets. */
  lemma AppendAt<T, K(!new)>(bs: seq<seq<T>>, key: T -> K, eq: (K, K) -> bool, hash: K -> nat, x: T)
    requires KeyContract(eq, hash) && |bs| > 0 && Placed(bs, key, hash) && Distinct(bs, key, eq)
    requires !StoredIn(bs, key, eq, key(x))
    ensures var n := hash(key(x)) % |bs|; var r := bs[n := bs[n] + [x]];
      && Placed(r, key, hash) && Distinct(r, key, eq) && OnlyEntry(r, key, eq, key(x), x)
      && multiset(Flatten(r)) == multiset(Flatten(bs)) + multiset{x}
      && |Flatten(r)| == |Flatten(bs)| + 1
  {
    var n := hash(key(x)) % |bs|;
    AppendKeeps(bs, key, eq, hash, x);
    FlattenUpdate(bs, n, bs[n] + [x]);
    assert multiset(bs[n] + [x]) == multiset(bs[n]) + multiset{x};
  }

  /** Everything a removal at k's match establishes about the new buckets. */
  lemma RemoveAt<T, K(!new)>(bs: seq<seq<T>>, key: T -> K, eq: (K, K) -> bool, hash: K -> nat, k: K, i: nat)
    requires KeyContract(eq, hash) && |bs| > 0 && Placed(bs, key, hash) && Distinct(bs, key, eq)
    requires i < |bs[hash(k) % |bs|]| && eq(key(bs[hash(k) % |bs|][i]), k)
    ensures var n := hash(k) % |bs|; var r := bs[n := SwapWithLast(bs[n], i)];
      && Placed(r, key, hash) && Distinct(r, key, eq) && !StoredIn(r, key, eq, k)
      && multiset(Flatten(r)) == multiset(Flatten(bs)) - multiset{bs[n][i]}
      && |Flatten(r)| == |Flatten(bs)| - 1
  {
    var n := hash(k) % |bs|;
    RemoveKeeps(bs, key, eq, hash, k, i);
    FlattenUpdate(bs, n, SwapWithLast(bs[n], i));
    SwapWithLastDrops(bs[n], i);
  }

  /** An iterator: a bucket number and an index into that bucket. */
  datatype Iter = Iter(bucketNum: nat, node: nat)

  ghost predicate AtElement<T>(b: seq<seq<T>>, it: Iter)
  {
    it.bucketNum < |b| && it.node < |b[it.bucketNum]|
  }

  function End<T>(b: seq<seq<T>>): Iter
  {
    Iter(|b|, 0)
  }

  /** The position of an iterator in the walk of all entries. */
  ghost function Index<T>(b: seq<seq<T>>, it: Iter): nat
    requires it.bucketNum <= |b|
  {
    |Flatten(b[..it.bucketNum])| + it.node
  }

  /** The entry an iterator points at (`*it`). */
  function Deref<T>(b: seq<seq<T>>, it: Iter): T
    requires it.bucketNum < |b| && it.node < |b[it.bucketNum]|
  {
    b[it.bucketNum][it.node]
  }

  /** `begin()`: the first entry of the first non-empty bucket, or `end()` when every bucket is empty. */
  method Begin<T>(b: seq<seq<T>>) returns (it: Iter)
    ensures AtElement(b, it) || it == End(b)
    ensures Index(b, it) == 0
  {
    var i := 0;
    while i < |b|
      invariant i <= |b|
      invariant forall k :: 0 <= k < i ==> b[k] == []
    {
      if |b[i]| != 0 {
        FlattenEmptyRun(b, 0, i);
        return Iter(i, 0);
      }
      i := i + 1;
    }
    FlattenEmptyRun(b, 0, |b|);
    it := End(b);
  }

  /** `++it`: the next entry in the same bucket, else the first entry of the next non-empty bucket, else `end()`. */
  method Next<T>(b: seq<seq<T>>, it: Iter) returns (r: Iter)
    requires AtElement(b, it)
    ensures AtElement(b, r) || r == End(b)
    ensures Index(b, r) == Index(b, it) + 1
  {
    var bn, node := it.bucketNum, it.node + 1;
    if node == |b[bn]| {
      node := 0;
      bn := bn + 1;
      while bn != |b|
        invariant it.bucketNum < bn <= |b|
        invariant forall k :: it.bucketNum < k < bn ==> b[k] == []
      {
        if |b[bn]| != 0 {
          break;
        }
        bn := bn + 1;
      }
      FlattenSnoc(b, it.bucketNum);
      FlattenEmptyRun(b, it.bucketNum + 1, bn);
    }
    r := Iter(bn, node);
  }

  /** Walking `++` from `begin()` to `end()` meets every stored entry exactly once, bucket by bucket. */
  method Elements<T>(b: seq<seq<T>>) returns (xs: seq<T>)
    ensures xs == Flatten(b)
  {
    var it := Begin(b);
    xs := [];
    assert b[..|b|] == b;
    while it != End(b)
      invariant AtElement(b, it) || it == End(b)
      invariant Index(b, it) <= |Flatten(b)|
      invariant xs == Flatten(b)[..Index(b, it)]
      decreases |Flatten(b)| - Index(b, it)
    {
      FlattenAt(b, it.bucketNum, it.node);
      xs := xs + [Deref(b, it)];
      it := Next(b, it);
    }
  }

  /**
   * `--it`: the previous entry in the same bucket, else the last entry of the nearest non-empty
   * bucket before it; `it` must not be `begin()`.
   */
  method Prev<T>(b: seq<seq<T>>, it: Iter) returns (r: Iter)
    requires AtElement(b, it) || it == End(b)
    requires Index(b, it) > 0
    ensures AtElement(b, r)
    ensures Index(b, r) + 1 == Index(b, it)
  {
    if it.node != 0 {
      return Iter(it.bucketNum, it.node - 1);
    }
    var bn: nat := it.bucketNum;
    while true
      invariant bn <= it.bucketNum <= |b|
      invariant Flatten(b[..bn]) == Flatten(b[..it.bucketNum])
      decreases bn
    {
      assert bn != 0 by {
        assert |Flatten(b[..bn])| > 0;
      }
      bn := bn - 1;
      FlattenSnoc(b, bn);
      if |b[bn]| != 0 {
        return Iter(bn, |b[bn]| - 1);
      }
    }
  }
}
