/**
 * The splitting step of FEC refinement (the body of the loop over old groups in cirSim.cpp): the
 * members of one group are filed in a hash map under a key (their simulation word), each key's list
 * kept sorted by gate id, and the lists with at least two members become the new groups. The key is
 * a parameter here, so the grouping is proved once for any key type.
 */
module FecGroups {
  import opened CirGate
  import opened Buckets
  import opened HashMapModel
  import opened Sorting
  import CirGraph

  /** Members of group g whose key is v, in group order. */
  function Class<K(==)>(key: Ref -> K, g: seq<Ref>, v: K): (c: seq<Ref>)
    ensures forall r :: r in c <==> r in g && key(r) == v
    ensures multiset(c) <= multiset(g)
    decreases |g|
  {
    if g == [] then
      []
    else
      var n := |g| - 1;
      assert g == g[..n] + [g[n]];
      Class(key, g[..n], v) + if key(g[n]) == v then [g[n]] else []
  }

  /** Filing one more member extends the class of its key and no other class. */
  lemma ClassSnoc<K>(key: Ref -> K, p: seq<Ref>, x: Ref, w: K)
    ensures Class(key, p + [x], w) == Class(key, p, w) + if key(x) == w then [x] else []
  {
    assert (p + [x])[..|p|] == p;
  }

  /** A key no member carries has an empty class. */
  lemma ClassNone<K>(key: Ref -> K, g: seq<Ref>, v: K)
    requires forall x :: x in g ==> key(x) != v
    ensures Class(key, g, v) == []
  {
  }

  /** Key equality, the `==` of the refinement's hash map. */
  function SameKey<K(==)>(a: K, b: K): bool
  {
    a == b
  }

  /** Equality with any hash is a valid hash key. */
  lemma SameKeyContract<K(!new)>(hash: K -> nat)
    ensures KeyContract(SameKey, hash)
  {
  }

  /** An entry for key e.0 holds exactly the members of p with that key, sorted by gate id. */
  ghost predicate FiledAs<K>(key: Ref -> K, p: seq<Ref>, e: (K, seq<Ref>))
  {
    && |e.1| > 0 && SortedBy(e.1, RefId)
    && multiset(e.1) == multiset(Class(key, p, e.0))
  }

  /** The filing loop's invariant: every entry is filed as its class in p, and every key met has an entry. */
  ghost predicate FiledUpTo<K>(key: Ref -> K, p: seq<Ref>, entries: seq<(K, seq<Ref>)>)
  {
    && (forall e :: e in entries ==> FiledAs(key, p, e))
    && (forall r :: r in p ==> exists e :: e in entries && e.0 == key(r))
  }

  /** A result of splitting g: a class of g with at least two members, sorted by gate id. */
  ghost predicate SplitOf<K>(key: Ref -> K, g: seq<Ref>, h: seq<Ref>)
  {
    |h| >= 2 && h[0] in g && SortedBy(h, RefId) && multiset(h) == multiset(Class(key, g, key(h[0])))
  }

  /** The head of a filed list carries the list's key. */
  lemma ClassHead<K>(key: Ref -> K, g: seq<Ref>, e: (K, seq<Ref>))
    requires FiledAs(key, g, e)
    ensures e.1[0] in g && key(e.1[0]) == e.0
  {
    assert e.1[0] in multiset(Class(key, g, e.0));
  }

  /** Every member of a filed list lies in the group and carries the list's key. */
  lemma FiledKey<K>(key: Ref -> K, g: seq<Ref>, e: (K, seq<Ref>))
    requires FiledAs(key, g, e)
    ensures forall a :: a in e.1 ==> a in g && key(a) == e.0
  {
    forall a | a in e.1
      ensures a in g && key(a) == e.0
    {
      assert a in multiset(Class(key, g, e.0));
    }
  }

  /** An entry of another key is untouched by filing x. */
  lemma FiledKept<K>(key: Ref -> K, p: seq<Ref>, x: Ref, e: (K, seq<Ref>))
    requires FiledAs(key, p, e) && e.0 != key(x)
    ensures FiledAs(key, p + [x], e)
  {
    ClassSnoc(key, p, x, e.0);
  }

  /** The entry of x's key, with x added and the list re-sorted, is filed. */
  lemma FiledJoined<K>(key: Ref -> K, p: seq<Ref>, x: Ref, e: (K, seq<Ref>), grp': seq<Ref>)
    requires FiledAs(key, p, e) && e.0 == key(x)
    requires SortedBy(grp', RefId) && multiset(grp') == multiset(e.1) + multiset{x}
    ensures FiledAs(key, p + [x], (e.0, grp'))
  {
    ClassSnoc(key, p, x, e.0);
    assert |multiset(grp')| > 0;
  }

  /** A key met for the first time starts a one-member list. */
  lemma FiledStarted<K>(key: Ref -> K, p: seq<Ref>, x: Ref)
    requires forall y :: y in p ==> key(y) != key(x)
    ensures FiledAs(key, p + [x], (key(x), [x]))
  {
    ClassNone(key, p, key(x));
    ClassSnoc(key, p, x, key(x));
  }

  /** The entries after x joined the stored list e0 of its key, re-sorted as grp'. */
  lemma FiledUpdate<K>(key: Ref -> K, p: seq<Ref>, x: Ref, before: seq<(K, seq<Ref>)>,
                       after: seq<(K, seq<Ref>)>, e0: (K, seq<Ref>), grp': seq<Ref>)
    requires FiledUpTo(key, p, before)
    requires e0 in before && e0.0 == key(x)
    requires SortedBy(grp', RefId) && multiset(grp') == multiset(e0.1) + multiset{x}
    requires forall e :: e in after && e.0 == e0.0 ==> e.1 == grp'
    requires forall e :: e in after && e.0 != e0.0 ==> e in before
    requires forall e :: e in before && e.0 != e0.0 ==> e in after
    requires exists e :: e in after && e.0 == e0.0
    ensures FiledUpTo(key, p + [x], after)
  {
    forall e | e in after
      ensures FiledAs(key, p + [x], e)
    {
      if e.0 != e0.0 {
        FiledKept(key, p, x, e);
      } else {
        FiledJoined(key, p, x, e0, grp');
      }
    }
    forall y | y in p + [x]
      ensures exists e :: e in after && e.0 == key(y)
    {
      if y != x && key(y) != e0.0 {
        var z :| z in before && z.0 == key(y);
        assert z in after;
      }
    }
  }

  /** The entries after x, whose key had no entry, started a list of its own. */
  lemma FiledInsert<K>(key: Ref -> K, p: seq<Ref>, x: Ref, before: seq<(K, seq<Ref>)>, after: seq<(K, seq<Ref>)>)
    requires FiledUpTo(key, p, before)
    requires forall e :: e in before ==> e.0 != key(x)
    requires (key(x), [x]) in after && forall e :: e in before ==> e in after
    requires forall e :: e in after ==> e in before || e == (key(x), [x])
    ensures FiledUpTo(key, p + [x], after)
  {
    forall y | y in p
      ensures key(y) != key(x)
    {
      var z :| z in before && z.0 == key(y);
    }
    forall e | e in after
      ensures FiledAs(key, p + [x], e)
    {
      if e == (key(x), [x]) {
        FiledStarted(key, p, x);
      } else {
        FiledKept(key, p, x, e);
      }
    }
    forall y | y in p + [x]
      ensures exists e :: e in after && e.0 == key(y)
    {
      if y == x {
        assert (key(x), [x]) in after;
      } else {
        assert y in p;
        var z :| z in before && z.0 == key(y);
        assert z in after;
      }
    }
  }

  /** The members of a sequence grown by one entry, as its multiset says. */
  lemma GrownBy<T>(a: seq<T>, b: seq<T>, x: T)
    requires multiset(b) == multiset(a) + multiset{x}
    ensures forall e :: e in b <==> e in a || e == x
  {
    forall e
      ensures e in b <==> e in a || e == x
    {
      assert e in b <==> e in multiset(b);
      assert e in a <==> e in multiset(a);
    }
  }

  /** One step of the filing loop: `query`, then `update` with the member added and re-sorted, or `insert`. */
  method FileMember<K(==, !new)>(key: Ref -> K, ghost p: seq<Ref>, x: Ref, filed: HashMap<K, seq<Ref>>)
    requires filed.Valid() && filed.numBuckets > 0 && filed.eq == SameKey
    requires FiledUpTo(key, p, filed.Entries())
    modifies filed.buckets
    ensures filed.Valid() && FiledUpTo(key, p + [x], filed.Entries())
  {
    var found, grp := filed.Query(key(x), []);
    if found {
      JoinMember(key, p, x, filed, grp);
    } else {
      StartMember(key, p, x, filed);
    }
  }

  /** x's key has the list grp: `update` it with x added and the list re-sorted. */
  method JoinMember<K(==, !new)>(key: Ref -> K, ghost p: seq<Ref>, x: Ref, filed: HashMap<K, seq<Ref>>, grp: seq<Ref>)
    requires filed.Valid() && filed.numBuckets > 0 && filed.eq == SameKey
    requires FiledUpTo(key, p, filed.Entries()) && filed.MapsTo(key(x), grp)
    modifies filed.buckets
    ensures filed.Valid() && FiledUpTo(key, p + [x], filed.Entries())
  {
    var v := key(x);
    ghost var before := filed.Entries();
    ghost var e0 :| OnlyEntry(filed.buckets[..], Key, filed.eq, v, e0) && filed.eq(e0.0, v) && e0.1 == grp;
    assert e0 in before && e0.0 == v;
    var grp' := SortBy(grp + [x], RefId);
    var _ := filed.Update(v, grp');
    ghost var after := filed.Entries();
    ghost var e1 :| OnlyEntry(filed.buckets[..], Key, filed.eq, v, e1) && filed.eq(e1.0, v) && e1.1 == grp';
    assert e1 in after && e1.0 == v;
    forall e | e in after && e.0 == v
      ensures e.1 == grp'
    {
      assert Key(e) == e.0;
    }
    forall e | e in after && e.0 != v
      ensures e in before
    {
      assert !filed.eq(e.0, v);
    }
    forall e | e in before && e.0 != v
      ensures e in after
    {
      assert !filed.eq(e.0, v);
    }
    FiledUpdate(key, p, x, before, after, e0, grp');
  }

  /** x's key has no list yet: `insert` a list holding x alone. */
  method StartMember<K(==, !new)>(key: Ref -> K, ghost p: seq<Ref>, x: Ref, filed: HashMap<K, seq<Ref>>)
    requires filed.Valid() && filed.numBuckets > 0 && filed.eq == SameKey
    requires FiledUpTo(key, p, filed.Entries()) && !filed.Stored(key(x))
    modifies filed.buckets
    ensures filed.Valid() && FiledUpTo(key, p + [x], filed.Entries())
  {
    var v := key(x);
    ghost var before := filed.Entries();
    forall e | e in before
      ensures e.0 != v
    {
      assert Key(e) == e.0;
    }
    var _ := filed.Insert(v, [x]);
    GrownBy(before, filed.Entries(), (v, [x]));
    FiledInsert(key, p, x, before, filed.Entries());
  }

  /**
   * The first inner loop of the refinement for one old group g: every member is filed under its key
   * in a fresh hash map of numBuckets buckets.
   */
  method FileGroup<K(==, !new)>(key: Ref -> K, g: seq<Ref>, numBuckets: nat, hash: K -> nat)
    returns (filed: HashMap<K, seq<Ref>>)
    requires numBuckets > 0
    ensures filed.Valid() && filed.eq == SameKey && FiledUpTo(key, g, filed.Entries())
  {
    SameKeyContract(hash);
    filed := new HashMap<K, seq<Ref>>(numBuckets, SameKey, hash);
    var j := 0;
    ghost var done: seq<Ref> := [];
    while j < |g|
      invariant j <= |g| && done == g[..j] && fresh(filed.buckets)
      invariant filed.Valid() && filed.numBuckets == numBuckets && filed.eq == SameKey
      invariant FiledUpTo(key, done, filed.Entries())
    {
      FileMember(key, done, g[j], filed);
      done := done + [g[j]];
      j := j + 1;
    }
    assert done == g;
  }

  /** Every class of two or more members has its entry among the filed lists. */
  lemma FiledComplete<K>(key: Ref -> K, g: seq<Ref>, xs: seq<(K, seq<Ref>)>, r: Ref)
    requires FiledUpTo(key, g, xs)
    requires r in g && |Class(key, g, key(r))| >= 2
    ensures exists l :: 0 <= l < |xs| && |xs[l].1| > 1 && multiset(xs[l].1) == multiset(Class(key, g, key(r)))
  {
    var e :| e in xs && e.0 == key(r);
    var l :| 0 <= l < |xs| && xs[l] == e;
    assert |multiset(e.1)| >= 2;
  }

  /** No reference lies in two of the groups. */
  ghost predicate Disjoint(groups: seq<seq<Ref>>)
  {
    forall i, j, a :: 0 <= i < j < |groups| && a in groups[i] ==> a !in groups[j]
  }

  /**
   * The second inner loop of the refinement for one old group g: walk the filed lists in iteration
   * order and keep those with more than one member.
   */
  method Collect<K>(key: Ref -> K, g: seq<Ref>, xs: seq<(K, seq<Ref>)>) returns (out: seq<seq<Ref>>)
    requires forall e :: e in xs ==> FiledAs(key, g, e)
    requires forall l, m :: 0 <= l < m < |xs| ==> xs[l].0 != xs[m].0
    ensures forall h :: h in out ==> SplitOf(key, g, h)
    ensures forall l :: 0 <= l < |xs| && |xs[l].1| > 1 ==> xs[l].1 in out
    ensures Disjoint(out)
  {
    out := [];
    var t := 0;
    while t < |xs|
      invariant t <= |xs|
      invariant forall h :: h in out ==> SplitOf(key, g, h)
      invariant forall l :: 0 <= l < t && |xs[l].1| > 1 ==> xs[l].1 in out
      invariant Disjoint(out)
      invariant forall h, a :: h in out && a in h ==> exists l :: 0 <= l < t && key(a) == xs[l].0
    {
      if |xs[t].1| > 1 {
        ClassHead(key, g, xs[t]);
        FiledKey(key, g, xs[t]);
        forall i, a | 0 <= i < |out| && a in out[i]
          ensures a !in xs[t].1
        {
          assert out[i] in out;
          var l :| 0 <= l < t && key(a) == xs[l].0;
        }
        DisjointSnoc(out, xs[t].1);
        out := out + [xs[t].1];
      }
      t := t + 1;
    }
  }

  /**
   * The inner loops of the refinement for one old group g: file every member, then collect the
   * lists with more than one member. Each result is the whole class of one key within g, sorted by
   * gate id, with at least two members; every such class is among the results.
   */
  method SplitGroup<K(==, !new)>(key: Ref -> K, g: seq<Ref>, numBuckets: nat, hash: K -> nat) returns (out: seq<seq<Ref>>)
    requires numBuckets > 0
    ensures forall h :: h in out ==> SplitOf(key, g, h)
    ensures forall r :: r in g && |Class(key, g, key(r))| >= 2 ==>
      exists h :: h in out && multiset(h) == multiset(Class(key, g, key(r)))
    ensures Disjoint(out)
  {
    var filed := FileGroup(key, g, numBuckets, hash);
    var xs := Elements(filed.buckets[..]);
    WalkDistinct(filed.buckets[..], Key, filed.eq, filed.hash, filed.numBuckets);
    assert filed.buckets[..][..filed.numBuckets] == filed.buckets[..];
    out := Collect(key, g, xs);
    forall r | r in g && |Class(key, g, key(r))| >= 2
      ensures exists h :: h in out && multiset(h) == multiset(Class(key, g, key(r)))
    {
      FiledComplete(key, g, xs, r);
    }
  }

  /** One more group that shares no reference with the earlier ones keeps the groups apart. */
  lemma DisjointSnoc(groups: seq<seq<Ref>>, h: seq<Ref>)
    requires Disjoint(groups)
    requires forall i, a :: 0 <= i < |groups| && a in groups[i] ==> a !in h
    ensures Disjoint(groups + [h])
  {
    var r := groups + [h];
    forall i, j, a | 0 <= i < j < |r| && a in r[i]
      ensures a !in r[j]
    {
      assert r[i] == groups[i];
    }
  }

  /** Two runs of groups kept apart, with no reference shared across them, are kept apart together. */
  lemma DisjointAppend(x: seq<seq<Ref>>, y: seq<seq<Ref>>)
    requires Disjoint(x) && Disjoint(y)
    requires forall p, q, a :: 0 <= p < |x| && 0 <= q < |y| && a in x[p] ==> a !in y[q]
    ensures Disjoint(x + y)
  {
    var r := x + y;
    forall i, j, a | 0 <= i < j < |r| && a in r[i]
      ensures a !in r[j]
    {
      if j < |x| {
        assert r[i] == x[i] && r[j] == x[j];
      } else if i < |x| {
        assert r[i] == x[i] && r[j] == y[j - |x|];
      } else {
        assert r[i] == y[i - |x|] && r[j] == y[j - |x|];
      }
    }
  }

  /** A reference outside g lies in no split of g. */
  lemma SplitOutside<K>(key: Ref -> K, g: seq<Ref>, h: seq<Ref>, a: Ref)
    requires SplitOf(key, g, h) && a !in g
    ensures a !in h
  {
    assert a !in multiset(Class(key, g, key(h[0])));
  }

  /** A member of a split lies in its old group and carries the split's key. */
  lemma SplitMember<K>(key: Ref -> K, g: seq<Ref>, h: seq<Ref>, a: Ref)
    requires SplitOf(key, g, h) && a in h
    ensures a in g && key(a) == key(h[0])
  {
    assert a in multiset(Class(key, g, key(h[0])));
  }

  /** Two different members of g with one key make that key's class a group of at least two. */
  lemma PairClass<K>(key: Ref -> K, g: seq<Ref>, a: Ref, b: Ref)
    requires a in g && b in g && a != b && key(a) == key(b)
    ensures |Class(key, g, key(a))| >= 2 && a in Class(key, g, key(a)) && b in Class(key, g, key(a))
  {
    var c := Class(key, g, key(a));
    assert a in c && b in c;
  }

  /** The new groups gathered from the first i old groups are splits of them, and include all their classes of two or more. */
  ghost predicate Gathered<K>(key: Ref -> K, groups: seq<seq<Ref>>, i: nat, out: seq<seq<Ref>>)
    requires i <= |groups|
  {
    && (forall h :: h in out ==> exists g :: g in groups[..i] && SplitOf(key, g, h))
    && (forall g, r :: g in groups[..i] && r in g && |Class(key, g, key(r))| >= 2 ==>
          exists h :: h in out && multiset(h) == multiset(Class(key, g, key(r))))
  }

  /** The members of s[..i + 1] are those of s[..i] and s[i]. */
  lemma PrefixSnoc<T>(s: seq<T>, i: nat)
    requires i < |s|
    ensures forall x :: x in s[..i + 1] <==> x in s[..i] || x == s[i]
  {
    assert s[..i + 1] == s[..i] + [s[i]];
  }

  /** Appending the splits of old group i extends what has been gathered by that group. */
  lemma GatherStep<K>(key: Ref -> K, groups: seq<seq<Ref>>, i: nat, out: seq<seq<Ref>>, split: seq<seq<Ref>>)
    requires i < |groups| && Gathered(key, groups, i, out)
    requires forall h :: h in split ==> SplitOf(key, groups[i], h)
    requires forall r :: r in groups[i] && |Class(key, groups[i], key(r))| >= 2 ==>
      exists h :: h in split && multiset(h) == multiset(Class(key, groups[i], key(r)))
    ensures Gathered(key, groups, i + 1, out + split)
  {
    PrefixSnoc(groups, i);
    GatherSplits(key, groups, i, out, split);
    GatherClasses(key, groups, i, out, split);
  }

  /** The first half of GatherStep: every gathered group is a split of an old group. */
  lemma GatherSplits<K>(key: Ref -> K, groups: seq<seq<Ref>>, i: nat, out: seq<seq<Ref>>, split: seq<seq<Ref>>)
    requires i < |groups|
    requires forall g :: g in groups[..i + 1] <==> g in groups[..i] || g == groups[i]
    requires forall h :: h in out ==> exists g :: g in groups[..i] && SplitOf(key, g, h)
    requires forall h :: h in split ==> SplitOf(key, groups[i], h)
    ensures forall h :: h in out + split ==> exists g :: g in groups[..i + 1] && SplitOf(key, g, h)
  {
    forall h | h in out + split
      ensures exists g :: g in groups[..i + 1] && SplitOf(key, g, h)
    {
      if h in out {
        var g :| g in groups[..i] && SplitOf(key, g, h);
      } else {
        assert SplitOf(key, groups[i], h);
      }
    }
  }

  /** The second half of GatherStep: every class of two or more has been gathered. */
  lemma GatherClasses<K>(key: Ref -> K, groups: seq<seq<Ref>>, i: nat, out: seq<seq<Ref>>, split: seq<seq<Ref>>)
    requires i < |groups|
    requires forall g :: g in groups[..i + 1] <==> g in groups[..i] || g == groups[i]
    requires forall g, r :: g in groups[..i] && r in g && |Class(key, g, key(r))| >= 2 ==>
      exists h :: h in out && multiset(h) == multiset(Class(key, g, key(r)))
    requires forall r :: r in groups[i] && |Class(key, groups[i], key(r))| >= 2 ==>
      exists h :: h in split && multiset(h) == multiset(Class(key, groups[i], key(r)))
    ensures forall g, r :: g in groups[..i + 1] && r in g && |Class(key, g, key(r))| >= 2 ==>
      exists h :: h in out + split && multiset(h) == multiset(Class(key, g, key(r)))
  {
    forall g, r | g in groups[..i + 1] && r in g && |Class(key, g, key(r))| >= 2
      ensures exists h :: h in out + split && multiset(h) == multiset(Class(key, g, key(r)))
    {
      if g in groups[..i] {
        var h :| h in out && multiset(h) == multiset(Class(key, g, key(r)));
        assert h in out + split;
      } else {
        var h :| h in split && multiset(h) == multiset(Class(key, g, key(r)));
        assert h in out + split;
      }
    }
  }

  /**
   * The outer loop of the refinement: split every old group in turn, the hash map sized by the
   * number of old groups, and gather the splits in order. Each new group is a split of an old group;
   * every class of two or more members within an old group is a new group.
   */
  method Refine<K(==, !new)>(key: Ref -> K, groups: seq<seq<Ref>>, hash: K -> nat) returns (out: seq<seq<Ref>>)
    ensures forall h :: h in out ==> exists g :: g in groups && SplitOf(key, g, h)
    ensures forall g, r :: g in groups && r in g && |Class(key, g, key(r))| >= 2 ==>
      exists h :: h in out && multiset(h) == multiset(Class(key, g, key(r)))
    ensures Disjoint(groups) ==> Disjoint(out)
  {
    out := [];
    var i := 0;
    while i < |groups|
      invariant i <= |groups| && Gathered(key, groups, i, out)
      invariant Disjoint(groups) ==> Disjoint(out)
    {
      var split := SplitGroup(key, groups[i], |groups|, hash);
      if Disjoint(groups) {
        GatherDisjoint(key, groups, i, out, split);
      }
      GatherStep(key, groups, i, out, split);
      out := out + split;
      i := i + 1;
    }
    assert groups[..i] == groups;
  }

  /** When the old groups are kept apart, the splits of old group i share nothing with those of the groups before it. */
  lemma GatherDisjoint<K>(key: Ref -> K, groups: seq<seq<Ref>>, i: nat, out: seq<seq<Ref>>, split: seq<seq<Ref>>)
    requires i < |groups| && Disjoint(groups)
    requires forall h :: h in out ==> exists g :: g in groups[..i] && SplitOf(key, g, h)
    requires forall h :: h in split ==> SplitOf(key, groups[i], h)
    requires Disjoint(out) && Disjoint(split)
    ensures Disjoint(out + split)
  {
    forall p, q, a | 0 <= p < |out| && 0 <= q < |split| && a in out[p]
      ensures a !in split[q]
    {
      assert out[p] in out && split[q] in split;
      var g :| g in groups[..i] && SplitOf(key, g, out[p]);
      SplitMember(key, g, out[p], a);
      var k :| 0 <= k < i && groups[k] == g;
      SplitOutside(key, groups[i], split[q], a);
    }
    DisjointAppend(out, split);
  }

  /** a and b have the same key under every key so far. */
  ghost predicate Agree<K>(keys: seq<Ref -> K>, a: Ref, b: Ref)
  {
    forall f :: f in keys ==> f(a) == f(b)
  }

  /**
   * What the groups keep from one refinement to the next, over the keys of the refinements so far:
   * each group is a non-empty part of the first group; the members of a group agree under every key;
   * any two different members of the first group that agree under every key share a group; and no
   * reference lies in two groups (so no group appears twice).
   */
  ghost predicate FecKept<K>(seed: seq<Ref>, keys: seq<Ref -> K>, groups: seq<seq<Ref>>)
  {
    && (forall h :: h in groups ==> |h| > 0 && multiset(h) <= multiset(seed))
    && Disjoint(groups)
    && (forall h, a :: h in groups && a in h ==> |h| > 0 && Agree(keys, a, h[0]))
    && (forall a, b :: a in seed && b in seed && a != b && Agree(keys, a, b) ==>
          exists h :: h in groups && a in h && b in h)
  }

  /** Before any refinement, the first group alone keeps it. */
  lemma FecKeptSeed<K>(seed: seq<Ref>, keys: seq<Ref -> K>)
    requires |seed| > 0 && keys == []
    ensures FecKept(seed, keys, [seed])
  {
    forall a, b | a in seed && b in seed && a != b
      ensures exists h :: h in [seed] && a in h && b in h
    {
      assert seed in [seed];
    }
  }

  /** Refining by one more key keeps what the groups keep, and every new group is sorted with two or more members. */
  lemma RefineKept<K>(seed: seq<Ref>, keys: seq<Ref -> K>, groups: seq<seq<Ref>>, key: Ref -> K, out: seq<seq<Ref>>)
    requires FecKept(seed, keys, groups)
    requires forall h :: h in out ==> exists g :: g in groups && SplitOf(key, g, h)
    requires forall g, r :: g in groups && r in g && |Class(key, g, key(r))| >= 2 ==>
      exists h :: h in out && multiset(h) == multiset(Class(key, g, key(r)))
    requires Disjoint(groups) ==> Disjoint(out)
    ensures FecKept(seed, keys + [key], out)
    ensures forall h :: h in out ==> |h| >= 2 && SortedBy(h, RefId)
  {
    KeptParts(seed, groups, key, out);
    KeptAgree(keys, groups, key, out);
    KeptTogether(seed, keys, groups, key, out);
  }

  /** The first part of RefineKept: new groups are sorted parts of the first group with two or more members. */
  lemma KeptParts<K>(seed: seq<Ref>, groups: seq<seq<Ref>>, key: Ref -> K, out: seq<seq<Ref>>)
    requires forall h :: h in groups ==> multiset(h) <= multiset(seed)
    requires forall h :: h in out ==> exists g :: g in groups && SplitOf(key, g, h)
    ensures forall h :: h in out ==> |h| >= 2 && SortedBy(h, RefId) && multiset(h) <= multiset(seed)
  {
    forall h | h in out
      ensures |h| >= 2 && SortedBy(h, RefId) && multiset(h) <= multiset(seed)
    {
      var g :| g in groups && SplitOf(key, g, h);
    }
  }

  /** The second part of RefineKept: the members of a new group agree under the old keys and the new one. */
  lemma KeptAgree<K>(keys: seq<Ref -> K>, groups: seq<seq<Ref>>, key: Ref -> K, out: seq<seq<Ref>>)
    requires forall h, a :: h in groups && a in h ==> |h| > 0 && Agree(keys, a, h[0])
    requires forall h :: h in out ==> exists g :: g in groups && SplitOf(key, g, h)
    ensures forall h, a :: h in out && a in h ==> |h| > 0 && Agree(keys + [key], a, h[0])
  {
    forall h, a | h in out && a in h
      ensures |h| > 0 && Agree(keys + [key], a, h[0])
    {
      var g :| g in groups && SplitOf(key, g, h);
      SplitMember(key, g, h, a);
      SplitMember(key, g, h, h[0]);
      assert Agree(keys, a, g[0]) && Agree(keys, h[0], g[0]);
    }
  }

  /** The third part of RefineKept: two different members of the first group that still agree share a new group. */
  lemma KeptTogether<K>(seed: seq<Ref>, keys: seq<Ref -> K>, groups: seq<seq<Ref>>, key: Ref -> K, out: seq<seq<Ref>>)
    requires forall a, b :: a in seed && b in seed && a != b && Agree(keys, a, b) ==>
      exists h :: h in groups && a in h && b in h
    requires forall g, r :: g in groups && r in g && |Class(key, g, key(r))| >= 2 ==>
      exists h :: h in out && multiset(h) == multiset(Class(key, g, key(r)))
    ensures forall a, b :: a in seed && b in seed && a != b && Agree(keys + [key], a, b) ==>
      exists h :: h in out && a in h && b in h
  {
    forall a, b | a in seed && b in seed && a != b && Agree(keys + [key], a, b)
      ensures exists h :: h in out && a in h && b in h
    {
      assert Agree(keys, a, b);
      var g :| g in groups && a in g && b in g;
      assert key in keys + [key];
      PairKept(groups, key, out, g, a, b);
    }
  }

  /** Two different members of an old group with one new key share a new group. */
  lemma PairKept<K>(groups: seq<seq<Ref>>, key: Ref -> K, out: seq<seq<Ref>>, g: seq<Ref>, a: Ref, b: Ref)
    requires forall g, r :: g in groups && r in g && |Class(key, g, key(r))| >= 2 ==>
      exists h :: h in out && multiset(h) == multiset(Class(key, g, key(r)))
    requires g in groups && a in g && b in g && a != b && key(a) == key(b)
    ensures exists h :: h in out && a in h && b in h
  {
    var c := Class(key, g, key(a));
    PairClass(key, g, a, b);
    var h :| h in out && multiset(h) == multiset(c);
    assert a in multiset(c) && b in multiset(c);
  }

  /** Reordering the groups keeps what they keep. */
  lemma FecKeptPermuted<K>(seed: seq<Ref>, keys: seq<Ref -> K>, groups: seq<seq<Ref>>, groups': seq<seq<Ref>>)
    requires FecKept(seed, keys, groups) && multiset(groups') == multiset(groups)
    ensures FecKept(seed, keys, groups')
  {
    forall h
      ensures h in groups' <==> h in groups
    {
      assert h in groups' <==> h in multiset(groups');
      assert h in groups <==> h in multiset(groups);
    }
    DisjointPermuted(groups, groups');
  }

  /** Non-empty groups kept apart are all different: each appears once. */
  lemma {:induction false} DisjointOnce(groups: seq<seq<Ref>>)
    requires Disjoint(groups) && forall h :: h in groups ==> |h| > 0
    ensures forall h :: multiset(groups)[h] <= 1
    decreases |groups|
  {
    if groups != [] {
      var g0, rest := groups[0], groups[1..];
      assert groups == [g0] + rest;
      assert Disjoint(rest) by {
        forall i, j, a | 0 <= i < j < |rest| && a in rest[i]
          ensures a !in rest[j]
        {
          assert rest[i] == groups[i + 1] && rest[j] == groups[j + 1];
        }
      }
      DisjointOnce(rest);
      forall y | y in rest
        ensures y != g0
      {
        var j :| 0 <= j < |rest| && rest[j] == y;
        assert g0[0] in groups[0] && y == groups[j + 1];
      }
      assert g0 !in rest;
      assert multiset(groups) == multiset{g0} + multiset(rest);
    }
  }

  /** Reordering non-empty groups kept apart keeps them apart. */
  lemma DisjointPermuted(groups: seq<seq<Ref>>, groups': seq<seq<Ref>>)
    requires Disjoint(groups) && (forall h :: h in groups ==> |h| > 0) && multiset(groups') == multiset(groups)
    ensures Disjoint(groups')
  {
    DisjointOnce(groups);
    forall i, j, a | 0 <= i < j < |groups'| && a in groups'[i]
      ensures a !in groups'[j]
    {
      CirGraph.TwoPositions(groups', i, j);
      assert groups'[i] != groups'[j];
      assert groups'[i] in multiset(groups) && groups'[j] in multiset(groups);
      var p :| 0 <= p < |groups| && groups[p] == groups'[i];
      var q :| 0 <= q < |groups| && groups[q] == groups'[j];
    }
  }
}
