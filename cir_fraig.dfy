/**
 * Structural hashing (`strash`): AND gates of the depth-first list are hashed on their fanin pair,
 * and a gate whose pair is already in the table is merged into the gate found there (`mergeSTR`).
 */
module CirFraig {
  import opened Wrappers
  import opened Buckets
  import opened HashMapModel
  import opened CirDef
  import opened CirGate
  import opened CirGraph
  import opened CirManager
  import opened CirOpt

  /** Slot j holds an AND gate. */
  predicate LiveAig(gm: GateMap, j: nat)
  {
    Live(gm, j) && gm[j].value.kind.Aig?
  }

  /** The hash key `getFanins` gives gate j. */
  function KeyOf(gm: GateMap, j: nat): TwoFanins
    requires Live(gm, j)
  {
    GetFanins(gm[j].value)
  }

  /** The pairs the strash table holds for the kept gates: each gate's key, and the gate. */
  function Pairs(gm: GateMap, kept: seq<nat>): (ps: seq<(TwoFanins, nat)>)
    requires forall x :: 0 <= x < |kept| ==> Live(gm, kept[x])
    ensures |ps| == |kept|
    ensures forall x :: 0 <= x < |kept| ==> ps[x] == (KeyOf(gm, kept[x]), kept[x])
  {
    seq(|kept|, x requires 0 <= x < |kept| => (KeyOf(gm, kept[x]), kept[x]))
  }

  /** A `query` of the strash table: the first kept AND gate whose key is `==` to k. */
  function Match(gm: GateMap, kept: seq<nat>, k: TwoFanins): (r: Option<nat>)
    ensures r.Some? ==> r.value in kept && LiveAig(gm, r.value) && Equal(KeyOf(gm, r.value), k)
    ensures r.None? <==> forall x :: 0 <= x < |kept| && LiveAig(gm, kept[x]) ==> !Equal(KeyOf(gm, kept[x]), k)
  {
    if kept == [] then None
    else if LiveAig(gm, kept[0]) && Equal(KeyOf(gm, kept[0]), k) then Some(kept[0])
    else
      var r := Match(gm, kept[1..], k);
      assert forall x :: 1 <= x < |kept| ==> kept[x] == kept[1..][x - 1];
      r
  }

  /**
   * One step of the strash loop on gate g with the kept gates `kept`: anything but an AND gate is
   * skipped; an AND gate whose key matches a kept gate is merged into it (`mergeSTR`, then its slot
   * emptied); any other AND gate is kept.
   */
  ghost function StrashStep(gm: GateMap, kept: seq<nat>, g: nat): (GateMap, seq<nat>)
  {
    if !LiveAig(gm, g) then (gm, kept)
    else match Match(gm, kept, KeyOf(gm, g))
      case Some(s) => (Replaced(gm, g, s, false), kept)
      case None => (gm, kept + [g])
  }

  /** The strash loop over the gates `rest`, in order. */
  ghost function StrashFrom(gm: GateMap, rest: seq<nat>, kept: seq<nat>): (GateMap, seq<nat>)
    decreases |rest|
  {
    if rest == [] then (gm, kept)
    else
      var s := StrashStep(gm, kept, rest[0]);
      StrashFrom(s.0, rest[1..], s.1)
  }

  /** No two different AND gates of the list have `==` keys. */
  ghost predicate Strashed(gm: GateMap, list: seq<nat>)
  {
    forall x, y :: 0 <= x < |list| && 0 <= y < |list| && list[x] != list[y] && LiveAig(gm, list[x]) && LiveAig(gm, list[y]) ==>
      !Equal(KeyOf(gm, list[x]), KeyOf(gm, list[y]))
  }

  /** No two different AND gates of the list read the same two references, in either order. */
  ghost predicate NoTwins(gm: GateMap, list: seq<nat>)
  {
    forall x, y :: 0 <= x < |list| && 0 <= y < |list| && list[x] != list[y] && LiveAig(gm, list[x]) && LiveAig(gm, list[y]) ==>
      var a, b := gm[list[x]].value.kind, gm[list[y]].value.kind;
      !((a.fanin1 == b.fanin1 && a.fanin2 == b.fanin2) || (a.fanin1 == b.fanin2 && a.fanin2 == b.fanin1))
  }

  /** Distinct keys mean distinct fanin pairs. */
  lemma StrashedNoTwins(gm: GateMap, list: seq<nat>)
    requires Strashed(gm, list)
    ensures NoTwins(gm, list)
  {
    forall x, y | 0 <= x < |list| && 0 <= y < |list| && list[x] != list[y] && LiveAig(gm, list[x]) && LiveAig(gm, list[y])
      ensures var a, b := gm[list[x]].value.kind, gm[list[y]].value.kind;
        !((a.fanin1 == b.fanin1 && a.fanin2 == b.fanin2) || (a.fanin1 == b.fanin2 && a.fanin2 == b.fanin1))
    {
      GetFaninsEqual(gm[list[x]].value, gm[list[y]].value);
    }
  }

  /**
   * The state of the strash loop before gate list[i]: the list still has fanins first; the gates not
   * yet visited are present; the kept gates are earlier AND gates with pairwise different keys, and
   * every earlier AND gate still present is kept.
   */
  ghost predicate StrashInv(gm: GateMap, list: seq<nat>, i: nat, kept: seq<nat>)
  {
    && i <= |list| && NoDup(list) && FaninsFirst(gm, list)
    && (forall k :: i <= k < |list| ==> Live(gm, list[k]))
    && (forall x :: 0 <= x < |kept| ==> kept[x] in list[..i] && LiveAig(gm, kept[x]))
    && (forall k :: 0 <= k < i && LiveAig(gm, list[k]) ==> list[k] in kept)
    && (forall x, y :: 0 <= x < y < |kept| ==> !Equal(KeyOf(gm, kept[x]), KeyOf(gm, kept[y])))
  }

  /** Two kept gates whose keys are both `==` to k are the same gate. */
  lemma OneMatch(gm: GateMap, list: seq<nat>, i: nat, kept: seq<nat>, k: TwoFanins, x: nat, y: nat)
    requires StrashInv(gm, list, i, kept) && x < |kept| && y < |kept|
    requires Equal(KeyOf(gm, kept[x]), k) && Equal(KeyOf(gm, kept[y]), k)
    ensures x == y
  {
    var kx, ky := KeyOf(gm, kept[x]), KeyOf(gm, kept[y]);
    EqualIsEquivalence(ky, k, kx);
    EqualIsEquivalence(kx, k, ky);
  }

  /** A hit in the strash table is the gate `Match` picks. */
  lemma MatchOfEntry(gm: GateMap, list: seq<nat>, i: nat, kept: seq<nat>, k: TwoFanins, e: (TwoFanins, nat))
    requires StrashInv(gm, list, i, kept) && e in Pairs(gm, kept) && Equal(e.0, k)
    ensures Match(gm, kept, k) == Some(e.1)
  {
    var ps := Pairs(gm, kept);
    var x :| 0 <= x < |kept| && ps[x] == e;
    var s := Match(gm, kept, k).value;
    var y :| 0 <= y < |kept| && kept[y] == s;
    OneMatch(gm, list, i, kept, k, x, y);
  }

  /** A miss in the strash table means no kept gate matches. */
  lemma MatchMissing(gm: GateMap, list: seq<nat>, i: nat, kept: seq<nat>, k: TwoFanins, entries: seq<(TwoFanins, nat)>)
    requires StrashInv(gm, list, i, kept) && multiset(entries) == multiset(Pairs(gm, kept))
    requires forall e :: e in entries ==> !Equal(e.0, k)
    ensures Match(gm, kept, k) == None
  {
    var ps := Pairs(gm, kept);
    forall x | 0 <= x < |kept| && LiveAig(gm, kept[x])
      ensures !Equal(KeyOf(gm, kept[x]), k)
    {
      assert ps[x] in multiset(ps);
    }
  }

  /** A step on anything but an AND gate keeps the loop state. */
  lemma StrashSkip(gm: GateMap, list: seq<nat>, i: nat, kept: seq<nat>)
    requires StrashInv(gm, list, i, kept) && i < |list| && !LiveAig(gm, list[i])
    ensures StrashInv(gm, list, i + 1, kept)
  {
    assert list[..i + 1] == list[..i] + [list[i]];
  }

  /** A step that keeps an AND gate without a match keeps the loop state. */
  lemma StrashKeep(gm: GateMap, list: seq<nat>, i: nat, kept: seq<nat>)
    requires StrashInv(gm, list, i, kept) && i < |list| && LiveAig(gm, list[i])
    requires Match(gm, kept, KeyOf(gm, list[i])) == None
    ensures StrashInv(gm, list, i + 1, kept + [list[i]])
    ensures Pairs(gm, kept + [list[i]]) == Pairs(gm, kept) + [(KeyOf(gm, list[i]), list[i])]
  {
    var kept', g := kept + [list[i]], list[i];
    assert list[..i + 1] == list[..i] + [g];
    forall x | 0 <= x < |kept'|
      ensures kept'[x] in list[..i + 1] && LiveAig(gm, kept'[x])
    {
      if x < |kept| {
        assert kept'[x] == kept[x];
      }
    }
    forall x, y | 0 <= x < y < |kept'|
      ensures !Equal(KeyOf(gm, kept'[x]), KeyOf(gm, kept'[y]))
    {
      assert kept'[x] == kept[x];
      if y == |kept| {
        assert kept'[y] == g;
      } else {
        assert kept'[y] == kept[y];
      }
    }
  }

  /** An earlier gate of a fanins-first list does not read a later AND gate. */
  lemma EarlierNotReading(gm: GateMap, list: seq<nat>, i: nat, k: nat)
    requires NoDup(list) && FaninsFirst(gm, list) && k < i < |list| && LiveAig(gm, list[i]) && Live(gm, list[k])
    ensures list[i] !in FaninIds(gm[list[k]].value.kind)
  {
    forall f | f in Fanins(gm[list[k]].value.kind)
      ensures f.id != list[i]
    {
      if Traversed(gm, f.id) {
        assert f.id in list[..k];
      }
    }
  }

  /** A merge keeps every gate before list[i] as it was, apart from its fanouts. */
  lemma MergeKeepsEarlier(gm: GateMap, list: seq<nat>, i: nat, s: nat)
    requires Mirror(gm) && NoDup(list) && FaninsFirst(gm, list) && i < |list| && LiveAig(gm, list[i])
    ensures forall k :: 0 <= k < i && Live(gm, list[k]) ==>
      Live(Replaced(gm, list[i], s, false), list[k]) && Replaced(gm, list[i], s, false)[list[k]].value.kind == gm[list[k]].value.kind
  {
    forall k | 0 <= k < i && Live(gm, list[k])
      ensures Live(Replaced(gm, list[i], s, false), list[k]) && Replaced(gm, list[i], s, false)[list[k]].value.kind == gm[list[k]].value.kind
    {
      EarlierNotReading(gm, list, i, k);
      ReplacedUntouched(gm, list[i], s, false, list[k]);
    }
  }

  /** Merging list[i] into an earlier gate keeps the list fanins-first. */
  lemma MergeFirst(gm: GateMap, list: seq<nat>, i: nat, s: nat)
    requires Mirror(gm) && NoDup(list) && FaninsFirst(gm, list) && i < |list| && LiveAig(gm, list[i])
    requires s in list[..i] && Live(gm, s)
    ensures FaninsFirst(Replaced(gm, list[i], s, false), list)
  {
    var g := list[i];
    var r := Replaced(gm, g, s, false);
    ReplacedKinds(gm, g, s, false);
    forall k, f | 0 <= k < |list| && Live(r, list[k]) && f in Fanins(r[list[k]].value.kind) && Traversed(r, f.id)
      ensures f.id in list[..k]
    {
      var c := list[k];
      ReplacedFanin(gm, g, s, false, c, f);
      assert Traversed(gm, f.id);
      if f !in Fanins(gm[c].value.kind) {
        assert g in list[..k];
        var j :| 0 <= j < k && list[j] == g;
        assert j == i;
        var j0 :| 0 <= j0 < i && list[j0] == s;
        assert list[..k][j0] == s;
      }
    }
  }

  /** The gate a merge targets: a kept AND gate other than g, and g is not the constant. */
  lemma MergeTarget(gm: GateMap, list: seq<nat>, i: nat, kept: seq<nat>, s: nat)
    requires TableOk(gm) && StrashInv(gm, list, i, kept) && i < |list| && LiveAig(gm, list[i])
    requires Match(gm, kept, KeyOf(gm, list[i])) == Some(s)
    ensures s != list[i] && list[i] != 0 && Live(gm, s) && !gm[s].value.kind.Po? && s in list[..i]
  {
    var ks :| 0 <= ks < |kept| && kept[ks] == s;
    var j :| 0 <= j < i && list[j] == s;
  }

  /**
   * Whatever value each gate has, a gate and the kept gate its key matches carry the same AND of their
   * fanins: merging the one into the other leaves every consumer computing the same function.
   */
  lemma MergeSound(gm: GateMap, kept: seq<nat>, g: nat, val: nat -> bool)
    requires LiveAig(gm, g) && Match(gm, kept, KeyOf(gm, g)).Some?
    ensures var a, b := gm[g].value.kind, gm[Match(gm, kept, KeyOf(gm, g)).value].value.kind;
      (Bit(val, a.fanin1) && Bit(val, a.fanin2)) == (Bit(val, b.fanin1) && Bit(val, b.fanin2))
  {
    var s := Match(gm, kept, KeyOf(gm, g)).value;
    GetFaninsEqual(gm[s].value, gm[g].value);
  }

  /**
   * Merging an AND gate into a different AND gate with an `==` key keeps the circuit free of cycles:
   * the two read the same gates, so the target can take the lower of the two ranks.
   */
  lemma MergeAcyclic(gm: GateMap, g: nat, s: nat)
    requires Mirror(gm) && Acyclic(gm) && LiveAig(gm, g) && LiveAig(gm, s) && s != g
    requires Equal(KeyOf(gm, s), KeyOf(gm, g))
    ensures Acyclic(Replaced(gm, g, s, false))
  {
    GetFaninsEqual(gm[s].value, gm[g].value);
    var rank0: nat -> nat :| Ranked(gm, rank0);
    var low := if rank0(g) < rank0(s) then rank0(g) else rank0(s);
    var rank: nat -> nat := i => if i == s then low else rank0(i);
    forall c: nat, f | Live(gm, c) && f in Fanins(gm[c].value.kind)
      ensures rank(f.id) < rank(c)
    {
      assert rank0(f.id) < rank0(c);
      if c == s {
        assert f in Fanins(gm[g].value.kind);
        assert rank0(f.id) < rank0(g);
      }
    }
    assert Ranked(gm, rank);
    ReplacedRanked(gm, g, s, false, rank);
  }

  /** A merge leaves the kept gates, and so their keys and the table's pairs, as they were. */
  lemma MergeKeepsKept(gm: GateMap, list: seq<nat>, i: nat, kept: seq<nat>, s: nat)
    requires Mirror(gm) && StrashInv(gm, list, i, kept) && i < |list| && LiveAig(gm, list[i])
    ensures forall x :: 0 <= x < |kept| ==>
      LiveAig(Replaced(gm, list[i], s, false), kept[x]) && KeyOf(Replaced(gm, list[i], s, false), kept[x]) == KeyOf(gm, kept[x])
    ensures Pairs(Replaced(gm, list[i], s, false), kept) == Pairs(gm, kept)
  {
    var r := Replaced(gm, list[i], s, false);
    MergeKeepsEarlier(gm, list, i, s);
    forall x | 0 <= x < |kept|
      ensures LiveAig(r, kept[x]) && r[kept[x]].value.kind == gm[kept[x]].value.kind
    {
      var jx :| 0 <= jx < i && list[jx] == kept[x];
    }
  }

  /** A merge leaves every gate after list[i] in the table. */
  lemma MergeKeepsLater(gm: GateMap, list: seq<nat>, i: nat, s: nat)
    requires NoDup(list) && i < |list| && Live(gm, list[i]) && forall k :: i < k < |list| ==> Live(gm, list[k])
    ensures forall k :: i < k < |list| ==> Live(Replaced(gm, list[i], s, false), list[k])
    ensures !Live(Replaced(gm, list[i], s, false), list[i])
  {
    forall k | i < k < |list|
      ensures Live(Replaced(gm, list[i], s, false), list[k])
    {
      ReplacedSlot(gm, list[i], s, false, list[k]);
    }
  }

  /**
   * The loop state moves past list[i] to a table r that empties list[i], keeps the later gates and
   * the kept gates with their keys, changes no kind, and keeps the list fanins-first.
   */
  lemma InvPastRemoved(gm: GateMap, r: GateMap, list: seq<nat>, i: nat, kept: seq<nat>)
    requires StrashInv(gm, list, i, kept) && i < |list| && KindsKept(gm, r) && FaninsFirst(r, list)
    requires !Live(r, list[i]) && forall k :: i < k < |list| ==> Live(r, list[k])
    requires forall x :: 0 <= x < |kept| ==> LiveAig(r, kept[x]) && KeyOf(r, kept[x]) == KeyOf(gm, kept[x])
    ensures StrashInv(r, list, i + 1, kept)
  {
    assert list[..i + 1] == list[..i] + [list[i]];
    forall k | 0 <= k < i + 1 && LiveAig(r, list[k])
      ensures list[k] in kept
    {
      assert LiveAig(gm, list[k]);
    }
  }

  /** A merge of list[i] into a kept gate with a `==` key keeps the loop state. */
  lemma StrashMerge(gm: GateMap, list: seq<nat>, i: nat, kept: seq<nat>, s: nat)
    requires TableOk(gm) && StrashInv(gm, list, i, kept) && i < |list| && LiveAig(gm, list[i])
    requires Match(gm, kept, KeyOf(gm, list[i])) == Some(s)
    ensures StrashInv(Replaced(gm, list[i], s, false), list, i + 1, kept)
  {
    MergeTarget(gm, list, i, kept, s);
    ReplacedKinds(gm, list[i], s, false);
    MergeFirst(gm, list, i, s);
    MergeKeepsKept(gm, list, i, kept, s);
    MergeKeepsLater(gm, list, i, s);
    InvPastRemoved(gm, Replaced(gm, list[i], s, false), list, i, kept);
  }

  /** A hit in the strash table, whose pairs are those of the kept gates, is the gate `Match` picks. */
  lemma HitIsMatch(h: HashMap<TwoFanins, nat>, gm: GateMap, list: seq<nat>, i: nat, kept: seq<nat>, key: TwoFanins, rep: nat)
    requires StrashInv(gm, list, i, kept) && h.eq == Equal && h.MapsTo(key, rep)
    requires multiset(h.Entries()) == multiset(Pairs(gm, kept))
    ensures Match(gm, kept, key) == Some(rep)
  {
    var e :| OnlyEntry(h.buckets[..], Key, h.eq, key, e) && h.eq(e.0, key) && e.1 == rep;
    assert e in multiset(Pairs(gm, kept));
    MatchOfEntry(gm, list, i, kept, key, e);
  }

  /** A miss in the strash table, whose pairs are those of the kept gates, means no kept gate matches. */
  lemma MissIsNone(h: HashMap<TwoFanins, nat>, gm: GateMap, list: seq<nat>, i: nat, kept: seq<nat>, key: TwoFanins)
    requires StrashInv(gm, list, i, kept) && h.eq == Equal && !h.Stored(key)
    requires multiset(h.Entries()) == multiset(Pairs(gm, kept))
    ensures Match(gm, kept, key) == None
  {
    forall e | e in h.Entries()
      ensures !Equal(e.0, key)
    {
      assert Key(e) == e.0;
    }
    MatchMissing(gm, list, i, kept, key, h.Entries());
  }

  /** `mergeSTR` of g into rep, and g's slot emptied, as the strash loop does it. */
  method MergeAt(m: CirMgr, g: nat, rep: nat, ghost list: seq<nat>, ghost i: nat, ghost kept: seq<nat>)
    requires m.Table() && StrashInv(m.gateMap, list, i, kept) && i < |list| && list[i] == g && LiveAig(m.gateMap, g)
    requires Match(m.gateMap, kept, KeyOf(m.gateMap, g)) == Some(rep)
    modifies m`gateMap
    ensures m.gateMap == Replaced(old(m.gateMap), g, rep, false)
    ensures m.Table() && StrashInv(m.gateMap, list, i + 1, kept) && KindsKept(old(m.gateMap), m.gateMap)
    ensures Pairs(m.gateMap, kept) == Pairs(old(m.gateMap), kept)
    ensures Acyclic(old(m.gateMap)) ==> Acyclic(m.gateMap)
  {
    ghost var gm := m.gateMap;
    MergeTarget(gm, list, i, kept, rep);
    if Acyclic(gm) {
      MergeAcyclic(gm, g, rep);
    }
    StrashMerge(gm, list, i, kept, rep);
    MergeKeepsKept(gm, list, i, kept, rep);
    ReplacedKinds(gm, g, rep, false);
    m.Replace(g, rep, false);
  }

  /** `insert` of a gate the table misses: the table then holds the pairs of the kept gates and of g. */
  method InsertAt(h: HashMap<TwoFanins, nat>, key: TwoFanins, g: nat, ghost gm: GateMap, ghost kept: seq<nat>)
    requires h.Valid() && h.numBuckets > 0 && !h.Stored(key) && Live(gm, g) && key == KeyOf(gm, g)
    requires forall x :: 0 <= x < |kept| ==> Live(gm, kept[x])
    requires multiset(h.Entries()) == multiset(Pairs(gm, kept))
    modifies h.buckets
    ensures h.Valid() && multiset(h.Entries()) == multiset(Pairs(gm, kept + [g]))
  {
    var ok := h.Insert(key, g);
    assert Pairs(gm, kept + [g]) == Pairs(gm, kept) + [(key, g)];
  }

  /**
   * One iteration of the strash loop on g == list[i]: an AND gate is looked up by `getFanins`; on a
   * hit it is merged into the gate found and its slot emptied, on a miss it is inserted.
   */
  method StrashAt(m: CirMgr, h: HashMap<TwoFanins, nat>, g: nat, ghost list: seq<nat>, ghost i: nat, ghost kept: seq<nat>)
    returns (ghost kept': seq<nat>)
    requires m.Table() && StrashInv(m.gateMap, list, i, kept) && i < |list| && list[i] == g
    requires h.Valid() && h.eq == Equal && h.numBuckets > 0
    requires multiset(h.Entries()) == multiset(Pairs(m.gateMap, kept))
    modifies m`gateMap, h.buckets
    ensures m.Table() && StrashInv(m.gateMap, list, i + 1, kept')
    ensures (m.gateMap, kept') == StrashStep(old(m.gateMap), kept, g)
    ensures h.Valid() && multiset(h.Entries()) == multiset(Pairs(m.gateMap, kept'))
    ensures KindsKept(old(m.gateMap), m.gateMap)
    ensures Acyclic(old(m.gateMap)) ==> Acyclic(m.gateMap)
  {
    ghost var gm := m.gateMap;
    var gt := m.gateMap[g].value;
    if !gt.kind.Aig? {
      StrashSkip(gm, list, i, kept);
      return kept;
    }
    var key := GetFanins(gt);
    var found, rep := h.Query(key, 0);
    if found {
      HitIsMatch(h, gm, list, i, kept, key, rep);
      MergeAt(m, g, rep, list, i, kept);
      kept' := kept;
    } else {
      MissIsNone(h, gm, list, i, kept, key);
      StrashKeep(gm, list, i, kept);
      InsertAt(h, key, g, gm, kept);
      kept' := kept + [g];
    }
  }

  /** When the loop has visited the whole list, no two different AND gates of it have `==` keys. */
  lemma InvStrashed(gm0: GateMap, gm: GateMap, list: seq<nat>, kept: seq<nat>)
    requires StrashInv(gm, list, |list|, kept)
    requires StrashFrom(gm, list[|list|..], kept) == StrashFrom(gm0, list, [])
    ensures Strashed(gm, list) && gm == StrashFrom(gm0, list, []).0
  {
    assert list[..|list|] == list && list[|list|..] == [];
    forall x, y | 0 <= x < |list| && 0 <= y < |list| && list[x] != list[y] && LiveAig(gm, list[x]) && LiveAig(gm, list[y])
      ensures !Equal(KeyOf(gm, list[x]), KeyOf(gm, list[y]))
    {
      var a :| 0 <= a < |kept| && kept[a] == list[x];
      var b :| 0 <= b < |kept| && kept[b] == list[y];
      EqualIsEquivalence(KeyOf(gm, list[x]), KeyOf(gm, list[y]), KeyOf(gm, list[x]));
    }
  }

  /**
   * The strash loop's invariant after i turns: the first i gates of the list are processed, the
   * table holds exactly the kept gates under their keys, and the rest of the fold is still to come.
   */
  ghost predicate StrashLoopInv(m: CirMgr, h: HashMap<TwoFanins, nat>, list: seq<nat>, i: nat, kept: seq<nat>, gm0: GateMap)
    reads m, h, h.buckets
  {
    && i <= |list| && m.dfsList == list
    && m.Table() && StrashInv(m.gateMap, list, i, kept) && KindsKept(gm0, m.gateMap)
    && h.Valid() && h.eq == Equal && h.numBuckets == |list|
    && multiset(h.Entries()) == multiset(Pairs(m.gateMap, kept))
    && StrashFrom(m.gateMap, list[i..], kept) == StrashFrom(gm0, list, [])
  }

  /** One turn of the strash loop: the loop's invariant moves from `i` to `i + 1`. */
  method StrashNext(m: CirMgr, h: HashMap<TwoFanins, nat>, list: seq<nat>, i: nat, ghost kept: seq<nat>, ghost gm0: GateMap)
    returns (ghost kept': seq<nat>)
    requires i < |list| && StrashLoopInv(m, h, list, i, kept, gm0)
    modifies m`gateMap, h.buckets
    ensures StrashLoopInv(m, h, list, i + 1, kept', gm0)
    ensures Acyclic(old(m.gateMap)) ==> Acyclic(m.gateMap)
  {
    ghost var gm := m.gateMap;
    kept' := StrashAt(m, h, list[i], list, i, kept);
    assert list[i..][1..] == list[i + 1..];
    KindsKeptTrans(gm0, gm, m.gateMap);
  }

  /**
   * The loop of `strash` over the depth-first list, with a table of `|dfsList|` buckets keyed by
   * `getFanins`: it computes the fold `StrashFrom`, and afterwards no two different AND gates of the
   * list have `==` keys.
   */
  method StrashLoop(m: CirMgr)
    requires m.Table() && NoDup(m.dfsList) && FaninsFirst(m.gateMap, m.dfsList)
    requires forall k :: 0 <= k < |m.dfsList| ==> Live(m.gateMap, m.dfsList[k])
    modifies m`gateMap
    ensures m.Table() && m.gateMap == StrashFrom(old(m.gateMap), m.dfsList, []).0
    ensures Strashed(m.gateMap, m.dfsList) && FaninsFirst(m.gateMap, m.dfsList)
    ensures KindsKept(old(m.gateMap), m.gateMap)
    ensures Acyclic(old(m.gateMap)) ==> Acyclic(m.gateMap)
  {
    ghost var gm0 := m.gateMap;
    var list := m.dfsList;
    KeyContractHolds(Scale);
    var h := new HashMap<TwoFanins, nat>(|list|, Equal, (t: TwoFanins) => Hash(Scale, t));
    ghost var kept: seq<nat> := [];
    var i := 0;
    StrashStart(gm0, list);
    while i < |list|
      invariant fresh(h) && fresh(h.buckets) && StrashLoopInv(m, h, list, i, kept, gm0)
      invariant Acyclic(gm0) ==> Acyclic(m.gateMap)
    {
      kept := StrashNext(m, h, list, i, kept, gm0);
      i := i + 1;
    }
    InvStrashed(gm0, m.gateMap, list, kept);
  }

  /** The strash loop's invariant holds before its first turn. */
  lemma StrashStart(gm: GateMap, list: seq<nat>)
    requires NoDup(list) && FaninsFirst(gm, list) && forall k :: 0 <= k < |list| ==> Live(gm, list[k])
    ensures StrashInv(gm, list, 0, []) && list[0..] == list && Pairs(gm, []) == []
  {
  }

  /** Emptying slots and reordering fanouts keep the list fanins-first and its keys apart. */
  lemma StrashedShrunk(gm1: GateMap, gm2: GateMap, gm3: GateMap, list: seq<nat>)
    requires Shrunk(gm1, gm2) && Shrunk(gm2, gm3) && Strashed(gm1, list) && FaninsFirst(gm1, list)
    ensures Strashed(gm3, list) && FaninsFirst(gm3, list)
  {
  }

  /**
   * A new `DFS` of a table in which the old list is fanins-first lists only gates of the old list;
   * so it has no two different AND gates with `==` keys either.
   */
  lemma StrashedWithin(gm: GateMap, old_list: seq<nat>, list: seq<nat>, roots: seq<nat>)
    requires DfsOk(gm, list, roots) && FaninsFirst(gm, old_list) && Strashed(gm, old_list)
    requires forall k :: 0 <= k < |roots| ==> roots[k] in old_list
    ensures Strashed(gm, list)
  {
    var t := set k | 0 <= k < |old_list| :: old_list[k];
    forall c, r | c in t && Live(gm, c) && r in Fanins(gm[c].value.kind) && Traversed(gm, r.id)
      ensures r.id in t
    {
      var k :| 0 <= k < |old_list| && old_list[k] == c;
      assert r.id in old_list[..k];
    }
    assert FaninClosed(gm, t);
    forall x, y | 0 <= x < |list| && 0 <= y < |list| && list[x] != list[y] && LiveAig(gm, list[x]) && LiveAig(gm, list[y])
      ensures !Equal(KeyOf(gm, list[x]), KeyOf(gm, list[y]))
    {
      assert list[x] in t && list[y] in t;
      var a :| 0 <= a < |old_list| && old_list[a] == list[x];
      var b :| 0 <= b < |old_list| && old_list[b] == list[y];
    }
  }

  /**
   * `strash`: the strash loop over the depth-first list, then `updateGateLists`, `sortAllFanouts`
   * and a new `DFS`. The new table is the old one after the merges of the strash loop over the old
   * list and the UNDEF clean-up, up to the order of fanout lists; the manager stays valid and acyclic,
   * and no two different AND gates of the new depth-first list read the same two references.
   */
  method Strash(m: CirMgr)
    requires m.Valid() && DfsOk(m.gateMap, m.dfsList, m.POs) && Acyclic(m.gateMap)
    modifies m`gateMap, m`AIGs, m`UNDEFs, m`marks, m`globalRef, m`dfsList
    ensures m.Valid() && DfsOk(m.gateMap, m.dfsList, m.POs) && Acyclic(m.gateMap)
    ensures Strashed(m.gateMap, m.dfsList) && NoTwins(m.gateMap, m.dfsList)
    ensures var merged := StrashFrom(old(m.gateMap), old(m.dfsList), []).0;
      && Reordered(ClearedUndefs(merged, old(m.UNDEFs)), m.gateMap)
      && m.AIGs == LiveOnly(merged, old(m.AIGs)) && m.UNDEFs == KeptUndefs(merged, old(m.UNDEFs))
  {
    ghost var list0 := m.dfsList;
    assert forall k :: 0 <= k < |m.POs| ==> m.POs[k] in list0;
    StrashGates(m);
    m.Dfs();
    StrashedWithin(m.gateMap, list0, m.dfsList, m.POs);
    StrashedNoTwins(m.gateMap, m.dfsList);
  }

  /**
   * `strash` before its new `DFS`: the strash loop, `updateGateLists` and `sortAllFanouts`; the old
   * list stays fanins-first and no two different AND gates of it have `==` keys.
   */
  method StrashGates(m: CirMgr)
    requires m.Valid() && DfsOk(m.gateMap, m.dfsList, m.POs) && Acyclic(m.gateMap)
    modifies m`gateMap, m`AIGs, m`UNDEFs
    ensures m.Valid() && Strashed(m.gateMap, m.dfsList) && FaninsFirst(m.gateMap, m.dfsList)
    ensures Acyclic(m.gateMap)
    ensures var merged := StrashFrom(old(m.gateMap), m.dfsList, []).0;
      && Reordered(ClearedUndefs(merged, old(m.UNDEFs)), m.gateMap)
      && m.AIGs == LiveOnly(merged, old(m.AIGs)) && m.UNDEFs == KeptUndefs(merged, old(m.UNDEFs))
  {
    ghost var gm0 := m.gateMap;
    StrashLoop(m);
    ListsKept(gm0, m.gateMap, m.PIs, m.POs, m.AIGs, m.UNDEFs);
    ghost var gm1 := m.gateMap;
    UpdateGateLists(m);
    ghost var gm2 := m.gateMap;
    m.SortAllFanouts();
    ReorderedShrunk(gm2, m.gateMap);
    StrashedShrunk(gm1, gm2, m.gateMap, m.dfsList);
    ShrunkAcyclic(gm1, gm2);
    ShrunkAcyclic(gm2, m.gateMap);
  }

  /** On a list whose AND gates have pairwise different keys, the strash loop merges nothing. */
  lemma {:induction false} StrashFromFixed(gm: GateMap, all: seq<nat>, rest: seq<nat>, kept: seq<nat>)
    requires Strashed(gm, all) && NoDup(rest)
    requires forall j :: j in rest ==> j in all
    requires forall x :: 0 <= x < |kept| ==> kept[x] in all && kept[x] !in rest
    ensures StrashFrom(gm, rest, kept).0 == gm
    decreases |rest|
  {
    if rest != [] {
      var g := rest[0];
      assert g in rest;
      var tail := rest[1..];
      assert forall j :: 0 <= j < |tail| ==> tail[j] == rest[j + 1];
      if LiveAig(gm, g) {
        forall x | 0 <= x < |kept| && LiveAig(gm, kept[x])
          ensures !Equal(KeyOf(gm, kept[x]), KeyOf(gm, g))
        {
          var a :| 0 <= a < |all| && all[a] == kept[x];
          var b :| 0 <= b < |all| && all[b] == g;
        }
        assert StrashStep(gm, kept, g) == (gm, kept + [g]);
        StrashFromFixed(gm, all, tail, kept + [g]);
      } else {
        StrashFromFixed(gm, all, tail, kept);
      }
    }
  }

  /** `strash` is idempotent: on the list it leaves, a second strash loop changes nothing. */
  lemma StrashIdempotent(gm: GateMap, list: seq<nat>)
    requires Strashed(gm, list) && NoDup(list)
    ensures StrashFrom(gm, list, []).0 == gm
  {
    StrashFromFixed(gm, list, list, []);
  }
}
