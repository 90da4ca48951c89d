/**
 * The optimisation passes of the circuit manager: `trivialOpt` and `optimize` (constant propagation
 * and `x AND x` / `x AND !x` folding over the depth-first list), `updateGateLists`, and `sweep` with
 * `getSortedDFSList`.
 */
module CirOpt {
  import opened Wrappers
  import opened CirGate
  import opened CirGraph
  import opened CirManager

  /** The slot of id holds the constant gate. */
  predicate IsConst(gm: GateMap, id: nat)
  {
    Live(gm, id) && gm[id].value.kind.Const?
  }

  /** What `trivialOpt` does with an AND gate: keep it, tie it to constant 0, or replace it by a reference. */
  datatype Trivial = Keep | ToConst | ToFanin(r: Ref)

  /**
   * The case analysis of `trivialOpt`, in its order: a constant fanin1 (plain: constant 0; inverted:
   * the gate is fanin2), then a constant fanin2 (likewise with fanin1), then one gate read twice
   * (opposite polarities: constant 0; the same polarity: the gate is fanin2).
   */
  function TrivialChoice(gm: GateMap, f1: Ref, f2: Ref): (t: Trivial)
    ensures t.Keep? <==> !IsConst(gm, f1.id) && !IsConst(gm, f2.id) && f1.id != f2.id
    ensures t.ToFanin? ==> t.r == f1 || t.r == f2
  {
    if IsConst(gm, f1.id) then (if f1.inv then ToFanin(f2) else ToConst)
    else if IsConst(gm, f2.id) then (if f2.inv then ToFanin(f1) else ToConst)
    else if f1.id == f2.id then (if f1.inv != f2.inv then ToConst else ToFanin(f2))
    else Keep
  }

  /** The value reference r carries when each gate i has value val(i). */
  function Bit(val: nat -> bool, r: Ref): bool
  {
    val(r.id) != r.inv
  }

  /**
   * Whatever value each gate has, as long as the constant is 0, what `trivialOpt` puts in the gate's
   * place carries the AND of the gate's two fanins: its consumers keep their function.
   */
  lemma TrivialSound(gm: GateMap, f1: Ref, f2: Ref, val: nat -> bool)
    requires forall i: nat :: IsConst(gm, i) ==> !val(i)
    ensures TrivialChoice(gm, f1, f2).ToConst? ==> !(Bit(val, f1) && Bit(val, f2))
    ensures TrivialChoice(gm, f1, f2).ToFanin? ==> Bit(val, TrivialChoice(gm, f1, f2).r) == (Bit(val, f1) && Bit(val, f2))
  {
  }

  /** The table after `trivialOpt` of gate g; nothing changes unless g is an AND gate that simplifies. */
  ghost function OptStep(gm: GateMap, g: nat): GateMap
  {
    if Live(gm, g) && gm[g].value.kind.Aig? then
      match TrivialChoice(gm, gm[g].value.kind.fanin1, gm[g].value.kind.fanin2)
      case Keep => gm
      case ToConst => Replaced(gm, g, 0, false)
      case ToFanin(r) => Replaced(gm, g, r.id, r.inv)
    else gm
  }

  /**
   * Moving the readers of g to a gate n ranked no higher than g keeps a rank valid: every new edge
   * runs from n to a gate that read g, and so ranks above g.
   */
  lemma ReplacedRanked(gm: GateMap, g: nat, n: nat, x: bool, rank: nat -> nat)
    requires Mirror(gm) && Live(gm, g) && Live(gm, n) && n != g && Ranked(gm, rank) && rank(n) <= rank(g)
    ensures Ranked(Replaced(gm, g, n, x), rank)
  {
    var r := Replaced(gm, g, n, x);
    forall c: nat, f | Live(r, c) && f in Fanins(r[c].value.kind)
      ensures rank(f.id) < rank(c)
    {
      ReplacedLive(gm, g, n, x, c);
      ReplacedFanin(gm, g, n, x, c, f);
    }
  }

  /** `trivialOpt` of one gate keeps the circuit free of cycles. */
  lemma OptStepAcyclic(gm: GateMap, g: nat)
    requires TableOk(gm) && Acyclic(gm)
    ensures Acyclic(OptStep(gm, g))
  {
    var rank0: nat -> nat :| Ranked(gm, rank0);
    var rank: nat -> nat := i => if i == 0 then 0 else rank0(i);
    forall c: nat, f | Live(gm, c) && f in Fanins(gm[c].value.kind)
      ensures rank(f.id) < rank(c)
    {
      assert rank0(f.id) < rank0(c);
    }
    assert Ranked(gm, rank);
    if Live(gm, g) && gm[g].value.kind.Aig? {
      var gk := gm[g].value.kind;
      match TrivialChoice(gm, gk.fanin1, gk.fanin2) {
        case Keep =>
        case ToConst =>
          ReplacedRanked(gm, g, 0, false, rank);
          assert Ranked(OptStep(gm, g), rank);
        case ToFanin(f) =>
          assert f in Fanins(gk);
          FaninListed(gm, g, f);
          ReplacedRanked(gm, g, f.id, f.inv, rank);
          assert Ranked(OptStep(gm, g), rank);
      }
    }
  }

  /** Emptying slots and reordering fanouts keep the circuit free of cycles. */
  lemma ShrunkAcyclic(gm: GateMap, gm': GateMap)
    requires Shrunk(gm, gm') && Acyclic(gm)
    ensures Acyclic(gm')
  {
    var rank: nat -> nat :| Ranked(gm, rank);
    assert Ranked(gm', rank);
  }

  /**
   * `AIGGate::trivialOpt`: when the gate simplifies, it leaves its fanins' fanout lists, every
   * consumer reads the replacement (the constant, plain, or the kept fanin with the polarities
   * combined), the replacement lists each consumer, and the gate's slot is emptied. A gate that
   * reads itself is excluded: it has no place in a combinational circuit.
   */
  method TrivialOpt(m: CirMgr, g: nat)
    requires m.Table() && Live(m.gateMap, g) && m.gateMap[g].value.kind.Aig?
    requires g !in FaninIds(m.gateMap[g].value.kind)
    modifies m`gateMap
    ensures m.Table() && m.gateMap == OptStep(old(m.gateMap), g)
  {
    var gt := m.gateMap[g].value;
    match TrivialChoice(m.gateMap, gt.kind.fanin1, gt.kind.fanin2) {
      case Keep =>
      case ToConst =>
        m.Replace(g, 0, false);
      case ToFanin(r) =>
        assert r in Fanins(gt.kind);
        FaninListed(m.gateMap, g, r);
        m.Replace(g, r.id, r.inv);
    }
  }

  /** `trivialOpt` of each listed gate in turn. */
  ghost function OptPass(gm: GateMap, list: seq<nat>): GateMap
  {
    if list == [] then gm else OptStep(OptPass(gm, list[..|list| - 1]), list[|list| - 1])
  }

  /** The pass of `optimize` as written: its loop starts at index 1, so the first listed gate is never tried. */
  ghost function OptPassAsWritten(gm: GateMap, list: seq<nat>): GateMap
  {
    if list == [] then gm else OptPass(gm, list[1..])
  }

  /** Every listed gate comes after the listed gates it reads, except the constant, which may not be listed. */
  ghost predicate FirstBut0(gm: GateMap, list: seq<nat>)
  {
    forall k, r :: 0 <= k < |list| && Live(gm, list[k]) && r in Fanins(gm[list[k]].value.kind) && Traversed(gm, r.id) && r.id != 0 ==>
      r.id in list[..k]
  }

  /** No AND gate among the first n listed is left that `trivialOpt` would still simplify. */
  ghost predicate Simplified(gm: GateMap, list: seq<nat>, n: nat)
  {
    forall k :: 0 <= k < n && k < |list| && Live(gm, list[k]) && gm[list[k]].value.kind.Aig? ==>
      TrivialChoice(gm, gm[list[k]].value.kind.fanin1, gm[list[k]].value.kind.fanin2).Keep?
  }

  /** A fanin of a gate after a replacement is one it had (other than g), or n where it read g. */
  lemma ReplacedFanin(gm: GateMap, g: nat, n: nat, x: bool, c: nat, f: Ref)
    requires Mirror(gm) && Live(gm, g) && Live(gm, n) && n != g && c != g && Live(gm, c)
    requires f in Fanins(Replaced(gm, g, n, x)[c].value.kind)
    ensures f.id != g
    ensures f in Fanins(gm[c].value.kind) || (f.id == n && Ref(g, f.inv != x) in Fanins(gm[c].value.kind))
  {
    ReplacedSlot(gm, g, n, x, c);
    ReplacedIns(gm, g, n, x, c, f.id, f.inv);
    assert Ins(Replaced(gm, g, n, x), c)[f] > 0;
  }

  /** A gate that does not read g keeps its kind through the replacement. */
  lemma ReplacedUntouched(gm: GateMap, g: nat, n: nat, x: bool, c: nat)
    requires Mirror(gm) && Live(gm, g) && c != g && Live(gm, c) && g !in FaninIds(gm[c].value.kind)
    ensures Live(Replaced(gm, g, n, x), c) && Replaced(gm, g, n, x)[c].value.kind == gm[c].value.kind
  {
    ReplacedSlot(gm, g, n, x, c);
    var fo := Strip(gm, g)[g].value.fanouts;
    StrippedFanouts(gm, g);
    forall e | e in fo
      ensures e.id != c
    {
      assert multiset(fo)[e] > 0;
      assert Ins(gm, e.id)[Ref(g, e.inv)] > 0;
      assert Ref(g, e.inv) in Fanins(gm[e.id].value.kind);
    }
  }

  /** Replacing an AND gate changes no slot's being the constant, other than its own. */
  lemma ReplacedConst(gm: GateMap, g: nat, n: nat, x: bool, j: nat)
    requires Live(gm, g) && gm[g].value.kind.Aig? && j != g
    ensures IsConst(Replaced(gm, g, n, x), j) == IsConst(gm, j)
  {
    ReplacedKinds(gm, g, n, x);
    if Live(gm, j) {
      ReplacedSlot(gm, g, n, x, j);
    }
  }

  /** A listed AND gate does not read itself. */
  lemma NoSelfRead(gm: GateMap, list: seq<nat>, i: nat)
    requires TableOk(gm) && NoDup(list) && FirstBut0(gm, list) && i < |list|
    requires Live(gm, list[i]) && gm[list[i]].value.kind.Aig?
    ensures list[i] !in FaninIds(gm[list[i]].value.kind)
  {
    forall r | r in Fanins(gm[list[i]].value.kind)
      ensures r.id != list[i]
    {
    }
  }

  /** Replacing the listed AND gate list[i] by the constant or one of its fanins keeps the list fanins-first. */
  lemma ReplacedFirst(gm: GateMap, list: seq<nat>, i: nat, n: nat, x: bool)
    requires TableOk(gm) && NoDup(list) && FirstBut0(gm, list) && i < |list|
    requires Live(gm, list[i]) && gm[list[i]].value.kind.Aig? && Live(gm, n) && n != list[i]
    requires n == 0 || n in FaninIds(gm[list[i]].value.kind)
    ensures FirstBut0(Replaced(gm, list[i], n, x), list)
  {
    var g := list[i];
    var r := Replaced(gm, g, n, x);
    ReplacedKinds(gm, g, n, x);
    forall k, f | 0 <= k < |list| && Live(r, list[k]) && f in Fanins(r[list[k]].value.kind) && Traversed(r, f.id) && f.id != 0
      ensures f.id in list[..k]
    {
      var c := list[k];
      ReplacedFanin(gm, g, n, x, c, f);
      assert Traversed(gm, f.id);
      if f !in Fanins(gm[c].value.kind) {
        var h := Ref(g, f.inv != x);
        assert g in list[..k];
        var j :| 0 <= j < k && list[j] == g;
        assert j == i;
        var f0 :| f0 in Fanins(gm[g].value.kind) && f0.id == n;
        assert n in list[..i];
        var j0 :| 0 <= j0 < i && list[j0] == n;
        assert list[..k][j0] == n;
      }
    }
  }

  /** Replacing list[i] keeps every earlier listed AND gate as it was, so it stays unsimplifiable. */
  lemma ReplacedSimplified(gm: GateMap, list: seq<nat>, i: nat, n: nat, x: bool)
    requires TableOk(gm) && NoDup(list) && FirstBut0(gm, list) && Simplified(gm, list, i) && i < |list|
    requires Live(gm, list[i]) && gm[list[i]].value.kind.Aig?
    ensures Simplified(Replaced(gm, list[i], n, x), list, i + 1)
  {
    var r := Replaced(gm, list[i], n, x);
    forall k | 0 <= k < i + 1 && k < |list| && Live(r, list[k]) && r[list[k]].value.kind.Aig?
      ensures TrivialChoice(r, r[list[k]].value.kind.fanin1, r[list[k]].value.kind.fanin2).Keep?
    {
      EarlierUntouched(gm, list, i, n, x, k);
    }
  }

  /** An earlier listed AND gate does not read list[i], so replacing list[i] leaves it and its fanins' kinds alone. */
  lemma EarlierUntouched(gm: GateMap, list: seq<nat>, i: nat, n: nat, x: bool, k: nat)
    requires TableOk(gm) && NoDup(list) && FirstBut0(gm, list) && k < i < |list|
    requires Live(gm, list[i]) && gm[list[i]].value.kind.Aig? && Live(gm, list[k]) && gm[list[k]].value.kind.Aig?
    ensures var r := Replaced(gm, list[i], n, x); var gk := gm[list[k]].value.kind;
      && Live(r, list[k]) && r[list[k]].value.kind == gk
      && IsConst(r, gk.fanin1.id) == IsConst(gm, gk.fanin1.id)
      && IsConst(r, gk.fanin2.id) == IsConst(gm, gk.fanin2.id)
  {
    var g, c := list[i], list[k];
    forall f | f in Fanins(gm[c].value.kind)
      ensures f.id != g
    {
    }
    ReplacedUntouched(gm, g, n, x, c);
    var f1, f2 := gm[c].value.kind.fanin1, gm[c].value.kind.fanin2;
    assert Fanins(gm[c].value.kind) == [f1, f2];
    ReplacedConst(gm, g, n, x, f1.id);
    ReplacedConst(gm, g, n, x, f2.id);
  }

  /** One replacement of the pass keeps the table valid, the list fanins-first and the simplified prefix. */
  lemma ReplacedStep(gm: GateMap, list: seq<nat>, i: nat, n: nat, x: bool)
    requires TableOk(gm) && NoDup(list) && FirstBut0(gm, list) && Simplified(gm, list, i) && i < |list|
    requires Live(gm, list[i]) && gm[list[i]].value.kind.Aig? && Live(gm, n) && n != list[i] && !gm[n].value.kind.Po?
    requires n == 0 || n in FaninIds(gm[list[i]].value.kind)
    ensures var r := Replaced(gm, list[i], n, x);
      TableOk(r) && FirstBut0(r, list) && Simplified(r, list, i + 1) && KindsKept(gm, r)
  {
    ReplacedTable(gm, list[i], n, x);
    ReplacedMirror(gm, list[i], n, x);
    ReplacedFirst(gm, list, i, n, x);
    ReplacedSimplified(gm, list, i, n, x);
    ReplacedKinds(gm, list[i], n, x);
  }

  /** `trivialOpt` of list[i] keeps the table valid, the list fanins-first, and leaves list[i] unsimplifiable. */
  lemma OptStepKeeps(gm: GateMap, list: seq<nat>, i: nat)
    requires TableOk(gm) && NoDup(list) && FirstBut0(gm, list) && Simplified(gm, list, i) && i < |list|
    ensures var r := OptStep(gm, list[i]);
      TableOk(r) && FirstBut0(r, list) && Simplified(r, list, i + 1) && KindsKept(gm, r)
  {
    var g := list[i];
    if Live(gm, g) && gm[g].value.kind.Aig? {
      var gk := gm[g].value.kind;
      NoSelfRead(gm, list, i);
      match TrivialChoice(gm, gk.fanin1, gk.fanin2) {
        case Keep =>
        case ToConst =>
          ReplacedStep(gm, list, i, 0, false);
        case ToFanin(f) =>
          assert f in Fanins(gk);
          FaninListed(gm, g, f);
          ReplacedStep(gm, list, i, f.id, f.inv);
      }
    }
  }

  lemma KindsKeptTrans(gm0: GateMap, gm1: GateMap, gm2: GateMap)
    requires KindsKept(gm0, gm1) && KindsKept(gm1, gm2)
    ensures KindsKept(gm0, gm2)
  {
  }

  /**
   * The loop of `optimize`: `trivialOpt` of every listed AND gate, in list order. Afterwards no
   * listed AND gate can be simplified any further, and the list still has fanins first.
   */
  method SimplifyAll(m: CirMgr)
    requires m.Table() && NoDup(m.dfsList) && FirstBut0(m.gateMap, m.dfsList)
    modifies m`gateMap
    ensures m.Table() && m.gateMap == OptPass(old(m.gateMap), m.dfsList)
    ensures FirstBut0(m.gateMap, m.dfsList) && Simplified(m.gateMap, m.dfsList, |m.dfsList|)
    ensures KindsKept(old(m.gateMap), m.gateMap)
    ensures Acyclic(old(m.gateMap)) ==> Acyclic(m.gateMap)
  {
    ghost var gm0 := m.gateMap;
    var i := 0;
    while i < |m.dfsList|
      invariant i <= |m.dfsList| && TableOk(m.gateMap)
      invariant m.gateMap == OptPass(gm0, m.dfsList[..i])
      invariant FirstBut0(m.gateMap, m.dfsList) && Simplified(m.gateMap, m.dfsList, i)
      invariant KindsKept(gm0, m.gateMap)
      invariant Acyclic(gm0) ==> Acyclic(m.gateMap)
    {
      var id := m.dfsList[i];
      ghost var gm := m.gateMap;
      OptStepKeeps(gm, m.dfsList, i);
      KindsKeptTrans(gm0, gm, OptStep(gm, id));
      if Acyclic(gm) {
        OptStepAcyclic(gm, id);
      }
      if Live(m.gateMap, id) && m.gateMap[id].value.kind.Aig? {
        NoSelfRead(gm, m.dfsList, i);
        TrivialOpt(m, id);
      }
      assert m.dfsList[..i + 1][..i] == m.dfsList[..i];
      i := i + 1;
    }
    assert m.dfsList[..i] == m.dfsList;
  }

  /** The ids of a list whose slot still holds a gate, in their order: the AIG loop of `updateGateLists`. */
  function LiveOnly(gm: GateMap, ids: seq<nat>): (r: seq<nat>)
    ensures forall j :: j in r <==> j in ids && Live(gm, j)
  {
    if ids == [] then []
    else
      var n := |ids| - 1;
      LiveOnly(gm, ids[..n]) + if Live(gm, ids[n]) then [ids[n]] else []
  }

  /**
   * `definedNotUsed` as the UNDEF loop of `updateGateLists` needs it for an UNDEF gate: nobody reads
   * it. `UNDEFGate` does not override `definedNotUsed`, whose default answers false.
   */
  predicate Unread(gt: Gate)
  {
    gt.fanouts == []
  }

  /** The UNDEF loop of `updateGateLists` as intended: drop the emptied slots and the gates nobody reads. */
  function KeptUndefs(gm: GateMap, ids: seq<nat>): (r: seq<nat>)
    ensures forall j :: j in r <==> j in ids && Live(gm, j) && !Unread(gm[j].value)
  {
    if ids == [] then []
    else
      var n := |ids| - 1;
      KeptUndefs(gm, ids[..n]) + if Live(gm, ids[n]) && !Unread(gm[ids[n]].value) then [ids[n]] else []
  }

  /** The UNDEF loop of `updateGateLists` as written: with `definedNotUsed` false for UNDEF gates it only drops emptied slots. */
  function UndefsAsWritten(gm: GateMap, ids: seq<nat>): (r: seq<nat>)
    ensures forall j :: j in r <==> j in ids && Live(gm, j) && !DefinedNotUsed(gm[j].value)
  {
    if ids == [] then []
    else
      var n := |ids| - 1;
      UndefsAsWritten(gm, ids[..n]) + if Live(gm, ids[n]) && !DefinedNotUsed(gm[ids[n]].value) then [ids[n]] else []
  }

  /** Counterexample: an UNDEF gate nobody reads stays listed, and keeps its slot, as written. */
  lemma UnreadUndefKept()
    ensures var gm := [Some(Gate(0, 0, Const, [], [])), Some(Gate(1, 0, Undef, [], []))];
      UndefsAsWritten(gm, [1]) == [1] && Unread(gm[1].value) && KeptUndefs(gm, [1]) == []
  {
    var gm := [Some(Gate(0, 0, Const, [], [])), Some(Gate(1, 0, Undef, [], []))];
    assert [1][..0] == [];
  }

  /** The table after the UNDEF loop: the slots of the listed gates nobody reads are emptied. */
  function ClearedUndefs(gm: GateMap, ids: seq<nat>): (r: GateMap)
    ensures |r| == |gm|
    ensures forall i :: 0 <= i < |gm| ==> r[i] == if i in ids && gm[i].Some? && Unread(gm[i].value) then None else gm[i]
  {
    seq(|gm|, i requires 0 <= i < |gm| => if i in ids && gm[i].Some? && Unread(gm[i].value) then None else gm[i])
  }

  /** Emptying the slots of UNDEF gates nobody reads changes no gate's fanins or fanouts. */
  lemma ClearedEdges(gm: GateMap, ids: seq<nat>)
    requires Mirror(gm) && forall k :: 0 <= k < |ids| && Live(gm, ids[k]) ==> gm[ids[k]].value.kind.Undef?
    ensures forall p: nat :: Outs(ClearedUndefs(gm, ids), p) == Outs(gm, p) && Ins(ClearedUndefs(gm, ids), p) == Ins(gm, p)
  {
    var r := ClearedUndefs(gm, ids);
    forall p: nat
      ensures Outs(r, p) == Outs(gm, p) && Ins(r, p) == Ins(gm, p)
    {
      if Live(gm, p) && !Live(r, p) {
        assert Fanins(gm[p].value.kind) == [];
      }
    }
  }

  /** Emptying those slots keeps the table valid and only empties UNDEF slots. */
  lemma ClearedTable(gm: GateMap, ids: seq<nat>)
    requires TableOk(gm) && forall k :: 0 <= k < |ids| && Live(gm, ids[k]) ==> gm[ids[k]].value.kind.Undef?
    ensures TableOk(ClearedUndefs(gm, ids)) && Shrunk(gm, ClearedUndefs(gm, ids))
  {
    var r := ClearedUndefs(gm, ids);
    ClearedEdges(gm, ids);
    assert Mirror(r) by {
      forall p: nat, c: nat, b: bool
        ensures Outs(r, p)[Ref(c, b)] == Ins(r, c)[Ref(p, b)]
      {
        assert Outs(gm, p)[Ref(c, b)] == Ins(gm, c)[Ref(p, b)];
      }
    }
    forall c: nat, f | Live(r, c) && f in Fanins(r[c].value.kind)
      ensures !(Live(r, f.id) && r[f.id].value.kind.Po?)
    {
      assert gm[c] == r[c];
    }
  }

  /** gm' only empties slots of gm: every gate left is the same gate, except possibly for its fanout list. */
  ghost predicate Shrunk(gm: GateMap, gm': GateMap)
  {
    && |gm'| == |gm|
    && (forall i: nat :: Live(gm', i) ==> Live(gm, i) && gm'[i].value.kind == gm[i].value.kind)
  }

  /** The gate lists `updateGateLists` leaves are consistent with the table it leaves, and exact. */
  lemma UpdatedLists(gm: GateMap, pis: seq<nat>, pos: seq<nat>, aigs: seq<nat>, undefs: seq<nat>)
    requires TableOk(gm) && ListsOk(gm, pis, pos, aigs, undefs)
    ensures var r := ClearedUndefs(gm, undefs);
      && TableOk(r) && Shrunk(gm, r)
      && ListsOk(r, pis, pos, LiveOnly(gm, aigs), KeptUndefs(gm, undefs))
      && (forall j :: j in LiveOnly(gm, aigs) ==> Live(r, j) && r[j].value.kind.Aig?)
      && (forall j :: j in KeptUndefs(gm, undefs) ==> Live(r, j) && r[j].value.kind.Undef? && !Unread(r[j].value))
  {
    ClearedTable(gm, undefs);
  }

  /** The AIG loop of `updateGateLists`. */
  method DropEmptyAigs(m: CirMgr)
    modifies m`AIGs
    ensures m.AIGs == LiveOnly(m.gateMap, old(m.AIGs))
  {
    var tmp: seq<nat> := [];
    var k := 0;
    while k < |m.AIGs|
      invariant k <= |m.AIGs| && tmp == LiveOnly(m.gateMap, m.AIGs[..k])
    {
      assert m.AIGs[..k + 1][..k] == m.AIGs[..k];
      var id := m.AIGs[k];
      if id < |m.gateMap| && m.gateMap[id].Some? {
        tmp := tmp + [id];
      }
      k := k + 1;
    }
    assert m.AIGs[..k] == m.AIGs;
    m.AIGs := tmp;
  }

  /** One more id: kept when its gate is present and read. */
  lemma KeptStep(gm: GateMap, ids: seq<nat>, id: nat)
    ensures KeptUndefs(gm, ids + [id]) == KeptUndefs(gm, ids) + if Live(gm, id) && !Unread(gm[id].value) then [id] else []
  {
    assert (ids + [id])[..|ids|] == ids;
  }

  /** An id past the end of the table clears nothing. */
  lemma ClearedPast(gm: GateMap, ids: seq<nat>, id: nat)
    requires id >= |gm|
    ensures ClearedUndefs(gm, ids + [id]) == ClearedUndefs(gm, ids)
  {
    var c, c' := ClearedUndefs(gm, ids), ClearedUndefs(gm, ids + [id]);
    assert forall i :: 0 <= i < |gm| ==> c'[i] == c[i];
  }

  /** One more id for the UNDEF loop: its slot is emptied when it holds a gate nobody reads. */
  lemma ClearedStep(gm: GateMap, ids: seq<nat>, id: nat)
    requires id < |gm|
    ensures var c := ClearedUndefs(gm, ids);
      && (c[id].Some? <==> gm[id].Some? && !(id in ids && Unread(gm[id].value)))
      && (c[id].Some? ==> c[id] == gm[id])
      && ClearedUndefs(gm, ids + [id]) == if c[id].Some? && Unread(c[id].value) then c[id := None] else c
  {
    var c, c' := ClearedUndefs(gm, ids), ClearedUndefs(gm, ids + [id]);
    var e := if c[id].Some? && Unread(c[id].value) then c[id := None] else c;
    forall i | 0 <= i < |gm|
      ensures c'[i] == e[i]
    {
    }
  }

  /** The UNDEF loop of `updateGateLists`, with `definedNotUsed` of an UNDEF gate read as "nobody reads it". */
  method DropUnreadUndefs(m: CirMgr)
    modifies m`UNDEFs, m`gateMap
    ensures m.UNDEFs == KeptUndefs(old(m.gateMap), old(m.UNDEFs))
    ensures m.gateMap == ClearedUndefs(old(m.gateMap), old(m.UNDEFs))
  {
    ghost var gm0 := m.gateMap;
    var undefs := m.UNDEFs;
    var tmp: seq<nat> := [];
    var k := 0;
    while k < |undefs|
      invariant k <= |undefs| && tmp == KeptUndefs(gm0, undefs[..k])
      invariant m.gateMap == ClearedUndefs(gm0, undefs[..k])
    {
      assert undefs[..k + 1] == undefs[..k] + [undefs[k]];
      var id := undefs[k];
      KeptStep(gm0, undefs[..k], id);
      if id < |m.gateMap| {
        ClearedStep(gm0, undefs[..k], id);
      } else {
        ClearedPast(gm0, undefs[..k], id);
      }
      if id >= |m.gateMap| || m.gateMap[id].None? {
      } else if Unread(m.gateMap[id].value) {
        m.gateMap := m.gateMap[id := None];
      } else {
        tmp := tmp + [id];
      }
      k := k + 1;
    }
    assert undefs[..k] == undefs;
    m.UNDEFs := tmp;
  }

  /**
   * `updateGateLists`: the AIG list loses the ids whose slot is empty; the UNDEF list loses those and
   * the UNDEF gates nobody reads, whose slots are emptied. Afterwards every listed AND or UNDEF gate
   * is in the table, and every UNDEF gate left is read by some gate.
   */
  method UpdateGateLists(m: CirMgr)
    requires m.Valid()
    modifies m`AIGs, m`UNDEFs, m`gateMap
    ensures m.Valid() && Shrunk(old(m.gateMap), m.gateMap)
    ensures m.AIGs == LiveOnly(old(m.gateMap), old(m.AIGs))
    ensures m.UNDEFs == KeptUndefs(old(m.gateMap), old(m.UNDEFs))
    ensures m.gateMap == ClearedUndefs(old(m.gateMap), old(m.UNDEFs))
    ensures forall j :: j in m.AIGs ==> Live(m.gateMap, j) && m.gateMap[j].value.kind.Aig?
    ensures forall j :: j in m.UNDEFs ==> Live(m.gateMap, j) && m.gateMap[j].value.kind.Undef? && !Unread(m.gateMap[j].value)
  {
    ghost var gm, pis, pos, aigs, undefs := m.gateMap, m.PIs, m.POs, m.AIGs, m.UNDEFs;
    assert TableOk(gm) && ListsOk(gm, pis, pos, aigs, undefs);
    DropEmptyAigs(m);
    DropUnreadUndefs(m);
    UpdatedManager(m, gm, pis, pos, aigs, undefs);
  }

  /** The manager once both loops of `updateGateLists` have run over the lists of a valid table gm. */
  lemma UpdatedManager(m: CirMgr, gm: GateMap, pis: seq<nat>, pos: seq<nat>, aigs: seq<nat>, undefs: seq<nat>)
    requires TableOk(gm) && ListsOk(gm, pis, pos, aigs, undefs) && m.PIs == pis && m.POs == pos
    requires |m.marks| == |gm| && m.globalRef >= 1 && (forall i :: 0 <= i < |m.marks| ==> m.marks[i] <= m.globalRef)
    requires |m.values| == |gm|
    requires m.gateMap == ClearedUndefs(gm, undefs) && m.AIGs == LiveOnly(gm, aigs) && m.UNDEFs == KeptUndefs(gm, undefs)
    ensures m.Valid() && Shrunk(gm, m.gateMap)
    ensures forall j :: j in m.AIGs ==> Live(m.gateMap, j) && m.gateMap[j].value.kind.Aig?
    ensures forall j :: j in m.UNDEFs ==> Live(m.gateMap, j) && m.gateMap[j].value.kind.Undef? && !Unread(m.gateMap[j].value)
  {
    UpdatedLists(gm, pis, pos, aigs, undefs);
  }

  /** The list `DFS` leaves in an acyclic circuit has no repeats and has fanins first. */
  lemma DfsFirst(gm: GateMap, list: seq<nat>, roots: seq<nat>)
    requires DfsOk(gm, list, roots) && Acyclic(gm)
    ensures NoDup(list) && FirstBut0(gm, list)
  {
  }

  /** Permuting fanout lists only reorders them. */
  lemma ReorderedShrunk(gm: GateMap, gm': GateMap)
    requires Reordered(gm, gm')
    ensures Shrunk(gm, gm')
  {
    forall i: nat | Live(gm', i)
      ensures Live(gm, i) && gm'[i].value.kind == gm[i].value.kind
    {
      assert gm'[i].value == gm[i].value.(fanouts := gm'[i].value.fanouts);
    }
  }

  /** Emptying slots other than the constant's keeps a list fanins-first and its AND gates unsimplifiable. */
  lemma ShrunkKeeps(gm: GateMap, gm': GateMap, list: seq<nat>)
    requires Shrunk(gm, gm') && IsConst(gm', 0) && (forall i: nat :: IsConst(gm, i) ==> i == 0)
    requires FirstBut0(gm, list) && Simplified(gm, list, |list|)
    ensures FirstBut0(gm', list) && Simplified(gm', list, |list|)
  {
    forall k | 0 <= k < |list| && Live(gm', list[k]) && gm'[list[k]].value.kind.Aig?
      ensures TrivialChoice(gm', gm'[list[k]].value.kind.fanin1, gm'[list[k]].value.kind.fanin2).Keep?
    {
      var gk := gm[list[k]].value.kind;
      assert IsConst(gm', gk.fanin1.id) == IsConst(gm, gk.fanin1.id);
      assert IsConst(gm', gk.fanin2.id) == IsConst(gm, gk.fanin2.id);
    }
  }

  /**
   * A new `DFS` of a table in which the old list, with the constant, is closed under fanins lists no
   * gate outside the old list but the constant; so it lists no AND gate that can be simplified.
   */
  lemma DfsWithin(gm: GateMap, old_list: seq<nat>, list: seq<nat>, roots: seq<nat>)
    requires DfsOk(gm, list, roots) && IsConst(gm, 0) && FirstBut0(gm, old_list) && Simplified(gm, old_list, |old_list|)
    requires forall k :: 0 <= k < |roots| ==> roots[k] in old_list
    ensures Simplified(gm, list, |list|)
  {
    var t := (set k | 0 <= k < |old_list| :: old_list[k]) + {0};
    forall c, r | c in t && Live(gm, c) && r in Fanins(gm[c].value.kind) && Traversed(gm, r.id)
      ensures r.id in t
    {
      if c != 0 {
        var k :| 0 <= k < |old_list| && old_list[k] == c;
        if r.id != 0 {
          assert r.id in old_list[..k];
        }
      }
    }
    assert FaninClosed(gm, t);
    forall k | 0 <= k < |list| && Live(gm, list[k]) && gm[list[k]].value.kind.Aig?
      ensures TrivialChoice(gm, gm[list[k]].value.kind.fanin1, gm[list[k]].value.kind.fanin2).Keep?
    {
      assert list[k] in t;
      var j :| 0 <= j < |old_list| && old_list[j] == list[k];
    }
  }

  /**
   * `optimize`: `trivialOpt` of every AND gate of the depth-first list, then `updateGateLists`,
   * `sortAllFanouts` and a new `DFS`. The new table is the old one after `trivialOpt` of each gate of
   * the old list and the UNDEF clean-up, up to the order of fanout lists; the manager stays valid and
   * acyclic, and no AND gate of the new list can be simplified any further.
   */
  method Optimize(m: CirMgr)
    requires m.Valid() && DfsOk(m.gateMap, m.dfsList, m.POs) && Acyclic(m.gateMap)
    modifies m`gateMap, m`AIGs, m`UNDEFs, m`marks, m`globalRef, m`dfsList
    ensures m.Valid() && DfsOk(m.gateMap, m.dfsList, m.POs) && Acyclic(m.gateMap)
    ensures Simplified(m.gateMap, m.dfsList, |m.dfsList|)
    ensures var opt := OptPass(old(m.gateMap), old(m.dfsList));
      && Reordered(ClearedUndefs(opt, old(m.UNDEFs)), m.gateMap)
      && m.AIGs == LiveOnly(opt, old(m.AIGs)) && m.UNDEFs == KeptUndefs(opt, old(m.UNDEFs))
  {
    ghost var list0 := m.dfsList;
    assert forall k :: 0 <= k < |m.POs| ==> m.POs[k] in list0;
    OptimizeGates(m);
    m.Dfs();
    DfsWithin(m.gateMap, list0, m.dfsList, m.POs);
  }

  /**
   * `optimize` before its new `DFS`: every AND gate of the old list simplified, the gate lists
   * updated and the fanouts sorted; no AND gate of the old list can then be simplified.
   */
  method OptimizeGates(m: CirMgr)
    requires m.Valid() && DfsOk(m.gateMap, m.dfsList, m.POs) && Acyclic(m.gateMap)
    modifies m`gateMap, m`AIGs, m`UNDEFs
    ensures m.Valid() && FirstBut0(m.gateMap, m.dfsList) && Simplified(m.gateMap, m.dfsList, |m.dfsList|)
    ensures Acyclic(m.gateMap)
    ensures var opt := OptPass(old(m.gateMap), m.dfsList);
      && Reordered(ClearedUndefs(opt, old(m.UNDEFs)), m.gateMap)
      && m.AIGs == LiveOnly(opt, old(m.AIGs)) && m.UNDEFs == KeptUndefs(opt, old(m.UNDEFs))
  {
    DfsFirst(m.gateMap, m.dfsList, m.POs);
    ghost var gm0 := m.gateMap;
    SimplifyAll(m);
    ListsKept(gm0, m.gateMap, m.PIs, m.POs, m.AIGs, m.UNDEFs);
    ghost var gm1 := m.gateMap;
    UpdateGateLists(m);
    ghost var gm2 := m.gateMap;
    m.SortAllFanouts();
    ReorderedShrunk(gm2, m.gateMap);
    ShrunkKeeps(gm1, m.gateMap, m.dfsList);
    ShrunkAcyclic(gm1, gm2);
    ShrunkAcyclic(gm2, m.gateMap);
  }

  /** The UNDEF gate a reference reads, if it reads one. */
  function UndefAt(gm: GateMap, r: Ref): Option<nat>
  {
    if Live(gm, r.id) && gm[r.id].value.kind.Undef? then Some(r.id) else None
  }

  /** `getFloatingFanin(a, b)` as a gate that reads an UNDEF gate needs it: the UNDEF gates it reads. */
  function FloatingFanin(gm: GateMap, gt: Gate): (ab: (Option<nat>, Option<nat>))
    ensures forall f :: f in Fanins(gt.kind) && Live(gm, f.id) && gm[f.id].value.kind.Undef? ==> ab.0 == Some(f.id) || ab.1 == Some(f.id)
    ensures ab.0.Some? ==> Live(gm, ab.0.value) && gm[ab.0.value].value.kind.Undef? && ab.0.value in FaninIds(gt.kind)
    ensures ab.1.Some? ==> Live(gm, ab.1.value) && gm[ab.1.value].value.kind.Undef? && ab.1.value in FaninIds(gt.kind)
  {
    match gt.kind
    case Aig(f1, f2) => (UndefAt(gm, f1), UndefAt(gm, f2))
    case Po(f) => (UndefAt(gm, f), None)
    case _ => (None, None)
  }

  /** `getFloatingFanin` as written: only `AIGGate` defines it, so a PO reports no UNDEF fanin. */
  function FloatingFaninAsWritten(gm: GateMap, gt: Gate): (ab: (Option<nat>, Option<nat>))
    ensures gt.kind.Po? ==> ab == (None, None)
  {
    match gt.kind
    case Aig(f1, f2) => (UndefAt(gm, f1), UndefAt(gm, f2))
    case _ => (None, None)
  }

  /** Gate c is present and j is an UNDEF gate it reads, as `getFloatingFanin` reports. */
  predicate ReadsFloating(gm: GateMap, c: nat, j: nat)
  {
    Live(gm, c) && (FloatingFanin(gm, gm[c].value).0 == Some(j) || FloatingFanin(gm, gm[c].value).1 == Some(j))
  }

  /** The same with `getFloatingFanin` as written. */
  predicate ReadsFloatingAsWritten(gm: GateMap, c: nat, j: nat)
  {
    Live(gm, c) && (FloatingFaninAsWritten(gm, gm[c].value).0 == Some(j) || FloatingFaninAsWritten(gm, gm[c].value).1 == Some(j))
  }

  /** The slots `getSortedDFSList` fills: the listed gates and the UNDEF gates they read. */
  ghost predicate Listed(gm: GateMap, list: seq<nat>, j: nat)
  {
    j in list || exists k :: 0 <= k < |list| && ReadsFloating(gm, list[k], j)
  }

  /** The same with `getFloatingFanin` as written. */
  ghost predicate ListedAsWritten(gm: GateMap, list: seq<nat>, j: nat)
  {
    j in list || exists k :: 0 <= k < |list| && ReadsFloatingAsWritten(gm, list[k], j)
  }

  lemma ListedSnoc(gm: GateMap, list: seq<nat>, id: nat, j: nat)
    ensures Listed(gm, list + [id], j) <==> Listed(gm, list, j) || j == id || ReadsFloating(gm, id, j)
  {
    var l := list + [id];
    if Listed(gm, l, j) && j !in l {
      var k :| 0 <= k < |l| && ReadsFloating(gm, l[k], j);
      if k < |list| {
        assert l[k] == list[k];
      }
    }
    if Listed(gm, list, j) && j !in list {
      var k :| 0 <= k < |list| && ReadsFloating(gm, list[k], j);
      assert l[k] == list[k];
    }
    if ReadsFloating(gm, id, j) {
      assert l[|list|] == id;
    }
  }

  /**
   * `getSortedDFSList`: slot id of the result is filled for every listed gate and every UNDEF gate a
   * listed gate reads, and empty elsewhere. A filled slot holds the very gate of that table slot, so
   * the result is modelled by which slots are filled.
   */
  method GetSortedDfsList(m: CirMgr) returns (listed: seq<bool>)
    requires forall k :: 0 <= k < |m.dfsList| ==> Live(m.gateMap, m.dfsList[k])
    ensures |listed| == |m.gateMap|
    ensures forall j :: 0 <= j < |listed| ==> listed[j] == Listed(m.gateMap, m.dfsList, j)
  {
    listed := seq(|m.gateMap|, j => false);
    var i := 0;
    while i < |m.dfsList|
      invariant i <= |m.dfsList| && |listed| == |m.gateMap|
      invariant forall j :: 0 <= j < |listed| ==> listed[j] == Listed(m.gateMap, m.dfsList[..i], j)
    {
      var id := m.dfsList[i];
      listed := listed[id := true];
      var ab := FloatingFanin(m.gateMap, m.gateMap[id].value);
      if ab.0.Some? {
        listed := listed[ab.0.value := true];
      }
      if ab.1.Some? {
        listed := listed[ab.1.value := true];
      }
      assert m.dfsList[..i + 1] == m.dfsList[..i] + [id];
      forall j | 0 <= j < |listed|
        ensures listed[j] == Listed(m.gateMap, m.dfsList[..i + 1], j)
      {
        ListedSnoc(m.gateMap, m.dfsList[..i], id, j);
      }
      i := i + 1;
    }
    assert m.dfsList[..i] == m.dfsList;
  }

  /** The fanout list without the entries whose consumer is in s, the rest in their order. */
  function DropIds(fs: seq<Ref>, s: set<nat>): (r: seq<Ref>)
    ensures |r| <= |fs|
  {
    if fs == [] then [] else (if fs[0].id in s then [] else [fs[0]]) + DropIds(fs[1..], s)
  }

  lemma {:induction false} DropIdsCounts(fs: seq<Ref>, s: set<nat>)
    ensures forall e :: multiset(DropIds(fs, s))[e] == if e.id in s then 0 else multiset(fs)[e]
  {
    if fs != [] {
      DropIdsCounts(fs[1..], s);
      assert fs == [fs[0]] + fs[1..];
    }
  }

  /** Removing one more consumer from a dropped list is dropping it with the others. */
  lemma {:induction false} DropIdsWithout(fs: seq<Ref>, s: set<nat>, t: nat)
    ensures Without(DropIds(fs, s), t) == DropIds(fs, s + {t})
  {
    if fs != [] {
      DropIdsWithout(fs[1..], s, t);
      if fs[0].id !in s {
        var x := [fs[0]] + DropIds(fs[1..], s);
        assert DropIds(fs, s) == x;
        assert x[0] == fs[0] && x[1..] == DropIds(fs[1..], s);
        assert Without(x, t) == (if fs[0].id == t then [] else [fs[0]]) + Without(DropIds(fs[1..], s), t);
        assert DropIds(fs, s + {t}) == (if fs[0].id == t then [] else [fs[0]]) + DropIds(fs[1..], s + {t});
      } else {
        assert DropIds(fs, s) == DropIds(fs[1..], s);
        assert DropIds(fs, s + {t}) == DropIds(fs[1..], s + {t});
      }
    }
  }

  /** Dropping a consumer the list does not name changes nothing. */
  lemma {:induction false} DropIdsAbsent(fs: seq<Ref>, s: set<nat>, t: nat)
    requires forall e :: e in fs ==> e.id != t
    ensures DropIds(fs, s + {t}) == DropIds(fs, s)
  {
    if fs != [] {
      assert fs[0] in fs;
      DropIdsAbsent(fs[1..], s, t);
    }
  }

  /** The table once the gates in s are removed: their slots emptied and every fanout entry naming one dropped. */
  function Swept(gm: GateMap, s: set<nat>): (r: GateMap)
    ensures |r| == |gm|
    ensures forall i: nat :: Live(r, i) <==> Live(gm, i) && i !in s
    ensures forall i: nat :: Live(r, i) ==> Live(gm, i) && r[i].value.kind == gm[i].value.kind && r[i].value.id == gm[i].value.id
  {
    seq(|gm|, i requires 0 <= i < |gm| =>
      if i in s || gm[i].None? then None else Some(gm[i].value.(fanouts := DropIds(gm[i].value.fanouts, s))))
  }

  /** One iteration of the sweep: `rmRelatingFanouts` of gate g and its slot emptied removes g as well. */
  lemma SweptStep(gm: GateMap, s: set<nat>, g: nat)
    requires Mirror(gm) && Live(gm, g) && g !in s
    ensures Live(Swept(gm, s), g)
    ensures Strip(Swept(gm, s), g)[g := None] == Swept(gm, s + {g})
  {
    var a := Swept(gm, s);
    var l := Strip(a, g)[g := None];
    var r := Swept(gm, s + {g});
    forall j | 0 <= j < |gm|
      ensures l[j] == r[j]
    {
      if j != g && gm[j].Some? && j !in s {
        var fs := gm[j].value.fanouts;
        DropIdsWithout(fs, s, g);
        forall e | e in fs && e.id == g
          ensures j in FaninIds(gm[g].value.kind)
        {
          FanoutListed(gm, j, e);
        }
        if j !in FaninIds(gm[g].value.kind) {
          DropIdsAbsent(fs, s, g);
        }
      }
    }
  }

  /** The gates kept read only gates kept. */
  ghost predicate KeepsFanins(gm: GateMap, s: set<nat>)
  {
    forall c: nat, f :: Live(gm, c) && c !in s && f in Fanins(gm[c].value.kind) ==> f.id !in s
  }

  /** Removing a set of gates that no kept gate reads leaves fanouts mirroring fanins. */
  lemma SweptMirror(gm: GateMap, s: set<nat>)
    requires Mirror(gm) && KeepsFanins(gm, s)
    ensures Mirror(Swept(gm, s))
  {
    MirrorFaninsLive(gm);
    forall p: nat, c: nat, b: bool
      ensures Outs(Swept(gm, s), p)[Ref(c, b)] == Ins(Swept(gm, s), c)[Ref(p, b)]
    {
      SweptMirrorAt(gm, s, p, c, b);
    }
  }

  /** The same for one producer, one consumer and one polarity. */
  lemma SweptMirrorAt(gm: GateMap, s: set<nat>, p: nat, c: nat, b: bool)
    requires Mirror(gm) && FaninsLive(gm) && KeepsFanins(gm, s)
    ensures Outs(Swept(gm, s), p)[Ref(c, b)] == Ins(Swept(gm, s), c)[Ref(p, b)]
  {
    var r := Swept(gm, s);
    assert Outs(gm, p)[Ref(c, b)] == Ins(gm, c)[Ref(p, b)];
    if Live(r, p) {
      DropIdsCounts(gm[p].value.fanouts, s);
      assert Outs(r, p)[Ref(c, b)] == if c in s then 0 else Outs(gm, p)[Ref(c, b)];
    } else if Live(r, c) {
      assert Ref(p, b) !in Fanins(gm[c].value.kind);
    }
  }

  /** The gates `sweep` removes: present, not the constant, not a PI, and not filled by `getSortedDFSList`. */
  ghost function SweepGone(gm: GateMap, list: seq<nat>): set<nat>
  {
    set j: nat | 1 <= j < |gm| && gm[j].Some? && !gm[j].value.kind.Pi? && !Listed(gm, list, j)
  }

  /** The same with `getFloatingFanin` as written. */
  ghost function SweepGoneAsWritten(gm: GateMap, list: seq<nat>): set<nat>
  {
    set j: nat | 1 <= j < |gm| && gm[j].Some? && !gm[j].value.kind.Pi? && !ListedAsWritten(gm, list, j)
  }

  /** The gates removed by the first n steps of the loop over `listed`. */
  function GoneBelow(gm: GateMap, listed: seq<bool>, n: nat): set<nat>
    requires |listed| == |gm|
  {
    set j: nat | 1 <= j < n && j < |gm| && gm[j].Some? && !gm[j].value.kind.Pi? && !listed[j]
  }

  /** A kept gate reads only kept gates: a listed gate's fanins are listed or UNDEF gates it reads. */
  lemma SweepKeepsFanins(gm: GateMap, list: seq<nat>, roots: seq<nat>)
    requires TableOk(gm) && DfsOk(gm, list, roots)
    ensures KeepsFanins(gm, SweepGone(gm, list))
  {
    MirrorFaninsLive(gm);
    forall c: nat, f | Live(gm, c) && c !in SweepGone(gm, list) && f in Fanins(gm[c].value.kind)
      ensures f.id !in SweepGone(gm, list)
    {
      KeptFanin(gm, list, c, f);
    }
  }

  /** The same for one fanin of one kept gate. */
  lemma KeptFanin(gm: GateMap, list: seq<nat>, c: nat, f: Ref)
    requires FaninsLive(gm) && FaninClosed(gm, set k | 0 <= k < |list| :: list[k])
    requires |gm| > 0 && gm[0].Some? && gm[0].value.kind.Const?
    requires Live(gm, c) && c !in SweepGone(gm, list) && f in Fanins(gm[c].value.kind)
    ensures f.id !in SweepGone(gm, list)
  {
    assert c in list;
    var k :| 0 <= k < |list| && list[k] == c;
    if Traversed(gm, f.id) {
      assert c in (set k | 0 <= k < |list| :: list[k]);
      assert f.id in list;
    } else {
      assert ReadsFloating(gm, list[k], f.id);
    }
  }

  /** The swept table keeps the table invariants, empties no PI, PO or constant slot, and changes no kind. */
  lemma SweptValid(gm: GateMap, list: seq<nat>, pos: seq<nat>)
    requires TableOk(gm) && DfsOk(gm, list, pos)
    requires forall i: nat :: Live(gm, i) ==> (gm[i].value.kind.Po? ==> i in pos) && (gm[i].value.kind.Const? ==> i == 0)
    ensures TableOk(Swept(gm, SweepGone(gm, list))) && KindsKept(gm, Swept(gm, SweepGone(gm, list)))
  {
    var s := SweepGone(gm, list);
    SweepKeepsFanins(gm, list, pos);
    SweptMirror(gm, s);
    forall i: nat | Live(gm, i) && gm[i].value.kind.Po?
      ensures i !in s
    {
      var k :| 0 <= k < |pos| && pos[k] == i;
      assert i in list;
    }
  }

  /** Every UNDEF gate the sweep keeps is read by a kept gate, so `updateGateLists` keeps it too. */
  lemma SweptUndefsRead(gm: GateMap, list: seq<nat>, roots: seq<nat>)
    requires TableOk(gm) && DfsOk(gm, list, roots) && Mirror(Swept(gm, SweepGone(gm, list)))
    ensures forall j: nat :: Live(Swept(gm, SweepGone(gm, list)), j) && Swept(gm, SweepGone(gm, list))[j].value.kind.Undef? ==>
      !Unread(Swept(gm, SweepGone(gm, list))[j].value)
  {
    forall j: nat | Live(Swept(gm, SweepGone(gm, list)), j) && Swept(gm, SweepGone(gm, list))[j].value.kind.Undef?
      ensures !Unread(Swept(gm, SweepGone(gm, list))[j].value)
    {
      SweptUndefRead(gm, list, j);
    }
  }

  /** The same for one UNDEF gate. */
  lemma SweptUndefRead(gm: GateMap, list: seq<nat>, j: nat)
    requires |gm| > 0 && gm[0].Some? && gm[0].value.kind.Const?
    requires forall k :: 0 <= k < |list| ==> Traversed(gm, list[k])
    requires Mirror(Swept(gm, SweepGone(gm, list)))
    requires Live(Swept(gm, SweepGone(gm, list)), j) && Swept(gm, SweepGone(gm, list))[j].value.kind.Undef?
    ensures !Unread(Swept(gm, SweepGone(gm, list))[j].value)
  {
    var s := SweepGone(gm, list);
    var r := Swept(gm, s);
    assert Live(gm, j) && j !in s && gm[j].value.kind.Undef?;
    assert j != 0 && !gm[j].value.kind.Pi?;
    assert Listed(gm, list, j);
    forall k | 0 <= k < |list|
      ensures list[k] != j
    {
      assert Traversed(gm, list[k]);
    }
    assert j !in list;
    var k :| 0 <= k < |list| && ReadsFloating(gm, list[k], j);
    var c := list[k];
    assert j in FaninIds(gm[c].value.kind);
    var f :| f in Fanins(gm[c].value.kind) && f.id == j;
    assert c in list;
    assert c !in s;
    assert Live(r, c) && r[c].value.kind == gm[c].value.kind;
    FaninListed(r, c, f);
  }

  /**
   * What the loop of `sweep` leaves for `updateGateLists`: a table and gate lists that keep their
   * invariants, an UNDEF loop with nothing to clear, and exactly the constant, the PIs and the slots
   * `getSortedDFSList` fills still present.
   */
  lemma SweptReady(gm: GateMap, list: seq<nat>, pis: seq<nat>, pos: seq<nat>, aigs: seq<nat>, undefs: seq<nat>)
    requires TableOk(gm) && ListsOk(gm, pis, pos, aigs, undefs) && DfsOk(gm, list, pos)
    ensures TableOk(Swept(gm, SweepGone(gm, list))) && ListsOk(Swept(gm, SweepGone(gm, list)), pis, pos, aigs, undefs)
    ensures ClearedUndefs(Swept(gm, SweepGone(gm, list)), undefs) == Swept(gm, SweepGone(gm, list))
    ensures forall i: nat :: Live(Swept(gm, SweepGone(gm, list)), i) <==>
      Live(gm, i) && (i == 0 || gm[i].value.kind.Pi? || Listed(gm, list, i))
  {
    var r := Swept(gm, SweepGone(gm, list));
    SweptValid(gm, list, pos);
    ListsKept(gm, r, pis, pos, aigs, undefs);
    SweptUndefsRead(gm, list, pos);
    assert ClearedUndefs(r, undefs) == r;
  }

  /** The loop of `sweep` over slots 1.. of the table. */
  method SweepLoop(m: CirMgr, listed: seq<bool>)
    requires Mirror(m.gateMap) && |listed| == |m.gateMap|
    modifies m`gateMap
    ensures m.gateMap == Swept(old(m.gateMap), GoneBelow(old(m.gateMap), listed, |listed|))
  {
    ghost var gm0 := m.gateMap;
    var i := 1;
    GoneNone(gm0, listed);
    SweptNone(gm0);
    while i < |m.gateMap|
      invariant 1 <= i <= |gm0| + 1 && |m.gateMap| == |gm0|
      invariant m.gateMap == Swept(gm0, GoneBelow(gm0, listed, i))
    {
      GoneStep(gm0, listed, i);
      if m.gateMap[i].Some? && !listed[i] {
        if !m.gateMap[i].value.kind.Pi? {
          SweptStep(gm0, GoneBelow(gm0, listed, i), i);
          m.RmRelatingFanouts(i);
          m.gateMap := m.gateMap[i := None];
        }
      }
      i := i + 1;
    }
    GoneAll(gm0, listed, i);
  }

  /** Before the loop no gate is removed. */
  lemma GoneNone(gm: GateMap, listed: seq<bool>)
    requires |listed| == |gm|
    ensures GoneBelow(gm, listed, 1) == {}
  {
  }

  /** Step i of the loop removes gate i exactly when it is present, not a PI and not listed. */
  lemma GoneStep(gm: GateMap, listed: seq<bool>, i: nat)
    requires |listed| == |gm| && 1 <= i < |gm|
    ensures i !in GoneBelow(gm, listed, i)
    ensures gm[i].Some? && !gm[i].value.kind.Pi? && !listed[i] ==> GoneBelow(gm, listed, i + 1) == GoneBelow(gm, listed, i) + {i}
    ensures !(gm[i].Some? && !gm[i].value.kind.Pi? && !listed[i]) ==> GoneBelow(gm, listed, i + 1) == GoneBelow(gm, listed, i)
  {
  }

  /** Once the loop has passed the end of the table, every gate it removes is removed. */
  lemma GoneAll(gm: GateMap, listed: seq<bool>, i: nat)
    requires |listed| == |gm| && i >= |gm|
    ensures GoneBelow(gm, listed, i) == GoneBelow(gm, listed, |listed|)
  {
  }

  /** Removing no gate changes nothing. */
  lemma SweptNone(gm: GateMap)
    ensures Swept(gm, {}) == gm
  {
    forall j | 0 <= j < |gm| && gm[j].Some?
      ensures DropIds(gm[j].value.fanouts, {}) == gm[j].value.fanouts
    {
      DropIdsNone(gm[j].value.fanouts);
    }
  }

  lemma {:induction false} DropIdsNone(fs: seq<Ref>)
    ensures DropIds(fs, {}) == fs
  {
    if fs != [] {
      DropIdsNone(fs[1..]);
      assert fs == [fs[0]] + fs[1..];
    }
  }

  /**
   * `sweep`: every gate that is not the constant, not a PI, not in the depth-first list and not an
   * UNDEF gate a listed gate reads leaves the table, after its fanins forget it; `updateGateLists`
   * then trims the AND and UNDEF lists. The depth-first list is left as it is.
   */
  method Sweep(m: CirMgr)
    requires m.Valid() && DfsOk(m.gateMap, m.dfsList, m.POs)
    modifies m`gateMap, m`AIGs, m`UNDEFs
    ensures m.Valid()
    ensures m.gateMap == Swept(old(m.gateMap), SweepGone(old(m.gateMap), m.dfsList))
    ensures m.AIGs == LiveOnly(m.gateMap, old(m.AIGs)) && m.UNDEFs == KeptUndefs(m.gateMap, old(m.UNDEFs))
    ensures forall i: nat :: Live(m.gateMap, i) <==>
      Live(old(m.gateMap), i) && (i == 0 || old(m.gateMap)[i].value.kind.Pi? || Listed(old(m.gateMap), m.dfsList, i))
    ensures Acyclic(old(m.gateMap)) ==> Acyclic(m.gateMap) && DfsOk(m.gateMap, m.dfsList, m.POs)
  {
    ghost var gm0 := m.gateMap;
    var listed := GetSortedDfsList(m);
    SweepLoop(m, listed);
    assert GoneBelow(gm0, listed, |listed|) == SweepGone(gm0, m.dfsList);
    SweptReady(gm0, m.dfsList, m.PIs, m.POs, m.AIGs, m.UNDEFs);
    UpdateGateLists(m);
    SweptDfs(gm0, m.dfsList, m.POs);
  }

  /** The sweep keeps an acyclic circuit acyclic, and the depth-first list it leaves unchanged one of its depth-first lists. */
  lemma SweptDfs(gm: GateMap, list: seq<nat>, pos: seq<nat>)
    requires DfsOk(gm, list, pos)
    ensures Acyclic(gm) ==> Acyclic(Swept(gm, SweepGone(gm, list))) && DfsOk(Swept(gm, SweepGone(gm, list)), list, pos)
  {
    var r := Swept(gm, SweepGone(gm, list));
    if Acyclic(gm) {
      forall k | 0 <= k < |list|
        ensures Live(r, list[k])
      {
        assert Listed(gm, list, list[k]);
      }
      ShrunkDfs(gm, r, list, pos);
    }
  }

  /**
   * Emptying slots other than those of a depth-first list, and reordering fanouts, keeps an acyclic
   * circuit acyclic and the list a depth-first list of it.
   */
  lemma ShrunkDfs(gm: GateMap, gm': GateMap, list: seq<nat>, roots: seq<nat>)
    requires Shrunk(gm, gm') && DfsOk(gm, list, roots) && Acyclic(gm)
    requires forall k :: 0 <= k < |list| ==> Live(gm', list[k])
    ensures Acyclic(gm') && DfsOk(gm', list, roots)
  {
    ShrunkAcyclic(gm, gm');
    var l := set k | 0 <= k < |list| :: list[k];
    forall k | 0 <= k < |list|
      ensures Traversed(gm', list[k])
    {
    }
    forall t | FaninClosed(gm', t) && (forall k :: 0 <= k < |roots| ==> roots[k] in t)
      ensures forall k :: 0 <= k < |list| ==> list[k] in t
    {
      var t' := t * l;
      forall c, r | c in t' && Live(gm, c) && r in Fanins(gm[c].value.kind) && Traversed(gm, r.id)
        ensures r.id in t'
      {
        var k :| 0 <= k < |list| && list[k] == c;
        assert r.id in l;
        var j :| 0 <= j < |list| && list[j] == r.id;
      }
      assert FaninClosed(gm, t');
      forall k | 0 <= k < |roots|
        ensures roots[k] in t'
      {
        var j :| 0 <= j < |list| && list[j] == roots[k];
      }
    }
  }

  /** A circuit whose only PO reads an UNDEF gate. */
  function PoOnUndef(): GateMap
  {
    [Some(Gate(0, 0, Const, [], [])),
     Some(Gate(1, 0, Undef, [Ref(2, false)], [])),
     Some(Gate(2, 0, Po(Ref(1, false)), [], []))]
  }

  /** That circuit is well formed. */
  lemma PoOnUndefTable()
    ensures TableOk(PoOnUndef())
  {
    var gm := PoOnUndef();
    PoOnUndefMirror();
    assert Fanins(gm[2].value.kind) == [Ref(1, false)];
    assert IdsMatch(gm);
  }

  lemma PoOnUndefMirror()
    ensures Mirror(PoOnUndef())
  {
    forall p: nat, c: nat, b: bool
      ensures Outs(PoOnUndef(), p)[Ref(c, b)] == Ins(PoOnUndef(), c)[Ref(p, b)]
    {
      PoOnUndefEdges(p, c);
    }
  }

  /** The one edge of that circuit: gate 2 reads gate 1. */
  lemma PoOnUndefEdges(p: nat, c: nat)
    ensures Outs(PoOnUndef(), p) == if p == 1 then multiset{Ref(2, false)} else multiset{}
    ensures Ins(PoOnUndef(), c) == if c == 2 then multiset{Ref(1, false)} else multiset{}
  {
  }

  /** [2] is the depth-first list of that circuit. */
  lemma PoOnUndefDfs()
    ensures DfsOk(PoOnUndef(), [2], [2])
  {
    var gm := PoOnUndef();
    assert Fanins(gm[2].value.kind) == [Ref(1, false)] && !Traversed(gm, 1);
  }

  /**
   * Counterexample: a PO that reads an UNDEF gate. `getFloatingFanin` as written reports nothing for a
   * PO, so the sweep empties the UNDEF gate's slot while the PO, which stays, still reads it: fanins
   * no longer mirror fanouts. The intended sweep keeps the UNDEF gate.
   */
  lemma PoFloatingFaninSwept()
    ensures var r := Swept(PoOnUndef(), SweepGoneAsWritten(PoOnUndef(), [2]));
            && Live(r, 2) && r[2].value.kind == Po(Ref(1, false)) && !Live(r, 1) && !Mirror(r)
            && Live(Swept(PoOnUndef(), SweepGone(PoOnUndef(), [2])), 1)
  {
    var gm := PoOnUndef();
    assert !ListedAsWritten(gm, [2], 1);
    assert SweepGoneAsWritten(gm, [2]) == {1};
    var r := Swept(gm, {1});
    assert Outs(r, 1)[Ref(2, false)] != Ins(r, 2)[Ref(1, false)];
    assert ReadsFloating(gm, [2][0], 1);
  }

  /** Counterexample: an AND gate whose fanins are both undefined is listed first and is never simplified. */
  lemma FirstGateSkipped()
    ensures var gm := [Some(Gate(0, 0, Const, [], [])),
                       Some(Gate(1, 0, Undef, [Ref(2, false), Ref(2, false)], [])),
                       Some(Gate(2, 0, Aig(Ref(1, false), Ref(1, false)), [Ref(3, false)], [])),
                       Some(Gate(3, 0, Po(Ref(2, false)), [], []))];
            var r := OptPassAsWritten(gm, [2, 3]);
            && NoDup([2, 3]) && FirstBut0(gm, [2, 3])
            && Live(r, 2) && r[2] == gm[2]
            && TrivialChoice(r, Ref(1, false), Ref(1, false)) == ToFanin(Ref(1, false))
  {
    var gm := [Some(Gate(0, 0, Const, [], [])),
               Some(Gate(1, 0, Undef, [Ref(2, false), Ref(2, false)], [])),
               Some(Gate(2, 0, Aig(Ref(1, false), Ref(1, false)), [Ref(3, false)], [])),
               Some(Gate(3, 0, Po(Ref(2, false)), [], []))];
    assert [2, 3][1..] == [3];
    assert [3][..0] == [];
    assert OptPass(gm, [3]) == OptStep(gm, 3) == gm;
    assert Fanins(gm[2].value.kind) == [Ref(1, false), Ref(1, false)] && !Traversed(gm, 1);
    assert Fanins(gm[3].value.kind) == [Ref(2, false)] && [2, 3][..1] == [2];
  }
}
