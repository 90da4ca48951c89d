/**
 * Bit-parallel simulation and FEC (functionally equivalent candidate) groups. Each gate carries a
 * word of 64 simulation bits, one per input pattern of a round; an FEC group lists references (a
 * gate with a polarity) whose words have agreed on every round so far.
 */
module CirSim {
  import opened CirGate
  import opened CirGraph
  import opened CirManager
  import opened Buckets
  import opened HashMapModel
  import opened Sorting
  import opened FecGroups
  import opened Wrappers
  import CirOpt

  /** The patterns one word carries: `sizeof(void*) * 8` on a 64-bit host. */
  const Bits := 64

  /** Bit k of a word; a bit past the end of a short word reads as 0. */
  function Bit(w: SimValue, k: nat): bool
  {
    k < |w| && w[k]
  }

  /** A full word: exactly Bits bits. */
  predicate IsWord(w: SimValue)
  {
    |w| == Bits
  }

  /** Every gate's word is full. */
  ghost predicate Words(values: seq<SimValue>)
  {
    forall i :: 0 <= i < |values| ==> IsWord(values[i])
  }

  /** The word of all zeros: the constant gate's value. */
  function Zero(): (w: SimValue)
    ensures IsWord(w)
  {
    seq(Bits, k => false)
  }

  /** `~w`: every bit flipped. */
  function Not(w: SimValue): (r: SimValue)
    ensures IsWord(r)
  {
    seq(Bits, k requires 0 <= k < Bits => !Bit(w, k))
  }

  /** `a & b`: the bits set in both. */
  function And(a: SimValue, b: SimValue): (r: SimValue)
    ensures IsWord(r)
  {
    seq(Bits, k requires 0 <= k < Bits => Bit(a, k) && Bit(b, k))
  }

  /** Complementing a full word twice gives it back. */
  lemma NotNot(w: SimValue)
    requires IsWord(w)
    ensures Not(Not(w)) == w
  {
    assert forall k :: 0 <= k < Bits ==> Not(Not(w))[k] == w[k];
  }

  /** No word is its own complement, so a gate and its negation never share a word. */
  lemma NotDiffers(w: SimValue)
    ensures Not(w) != w
  {
    if |w| == Bits {
      assert Not(w)[0] != w[0];
    }
  }

  /** The AND laws the simplification rules rest on, for a full word w. */
  lemma AndLaws(w: SimValue)
    requires IsWord(w)
    ensures And(Zero(), w) == Zero() && And(w, Zero()) == Zero()
    ensures And(Not(Zero()), w) == w && And(w, Not(Zero())) == w
    ensures And(w, w) == w
    ensures And(w, Not(w)) == Zero() && And(Not(w), w) == Zero()
  {
    assert forall k :: 0 <= k < Bits ==> And(Zero(), w)[k] == Zero()[k] && And(w, Zero())[k] == Zero()[k];
    assert forall k :: 0 <= k < Bits ==> And(Not(Zero()), w)[k] == w[k] && And(w, Not(Zero()))[k] == w[k];
    assert forall k :: 0 <= k < Bits ==> And(w, w)[k] == w[k];
    assert forall k :: 0 <= k < Bits ==> And(w, Not(w))[k] == Zero()[k] && And(Not(w), w)[k] == Zero()[k];
  }

  /** `getSimValue() ^ isInverting(r)`: the word of a reference, complemented when it inverts. */
  function RefValue(values: seq<SimValue>, r: Ref): (v: SimValue)
    requires r.id < |values|
    ensures IsWord(values[r.id]) ==> IsWord(v)
  {
    if r.inv then Not(values[r.id]) else values[r.id]
  }

  /** The two polarities of a gate read complementary words. */
  lemma RefNegate(values: seq<SimValue>, r: Ref)
    requires r.id < |values| && IsWord(values[r.id])
    ensures RefValue(values, Negate(r)) == Not(RefValue(values, r))
    ensures RefValue(values, Negate(r)) != RefValue(values, r)
  {
    NotNot(values[r.id]);
    NotDiffers(RefValue(values, r));
  }

  /** `AIGGate::simulate`: the AND of the two fanins' words. */
  function AndValue(values: seq<SimValue>, f1: Ref, f2: Ref): (v: SimValue)
    requires f1.id < |values| && f2.id < |values|
    ensures IsWord(v)
  {
    And(RefValue(values, f1), RefValue(values, f2))
  }

  /**
   * The word-level counterpart of CirOpt.TrivialSound: when the constant's word is all zeros, what
   * `trivialOpt` puts in an AND gate's place reads the word the gate itself simulates to.
   */
  lemma TrivialWords(gm: GateMap, values: seq<SimValue>, f1: Ref, f2: Ref)
    requires f1.id < |values| && f2.id < |values| && IsWord(values[f1.id]) && IsWord(values[f2.id])
    requires forall i :: 0 <= i < |values| && CirOpt.IsConst(gm, i) ==> values[i] == Zero()
    ensures CirOpt.TrivialChoice(gm, f1, f2).ToConst? ==> AndValue(values, f1, f2) == Zero()
    ensures CirOpt.TrivialChoice(gm, f1, f2).ToFanin? ==>
      AndValue(values, f1, f2) == RefValue(values, CirOpt.TrivialChoice(gm, f1, f2).r)
  {
    var w1, w2 := RefValue(values, f1), RefValue(values, f2);
    AndLaws(w1);
    AndLaws(w2);
    if f1.id == f2.id && f1.inv != f2.inv {
      assert f2 == Negate(f1);
      RefNegate(values, f1);
    }
  }

  /**
   * The `simulate` of gate id: an AND gate takes the AND of its fanins' words, a PO its fanin's word,
   * the constant the zero word; a PI or UNDEF gate keeps its word.
   */
  function SimGate(gm: GateMap, values: seq<SimValue>, id: nat): (r: seq<SimValue>)
    requires FaninsLive(gm) && |values| == |gm| && Live(gm, id)
    ensures |r| == |values| && forall i :: 0 <= i < |r| && i != id ==> r[i] == values[i]
  {
    match gm[id].value.kind
    case Aig(f1, f2) =>
      assert f1 in Fanins(gm[id].value.kind) && f2 in Fanins(gm[id].value.kind);
      values[id := AndValue(values, f1, f2)]
    case Po(f) =>
      assert f in Fanins(gm[id].value.kind);
      values[id := RefValue(values, f)]
    case Const => values[id := Zero()]
    case _ => values
  }

  /** The words after simulating the gates of list one after the other. */
  function SimList(gm: GateMap, values: seq<SimValue>, list: seq<nat>): (r: seq<SimValue>)
    requires FaninsLive(gm) && |values| == |gm| && forall k :: 0 <= k < |list| ==> Live(gm, list[k])
    ensures |r| == |values|
    ensures forall i :: 0 <= i < |r| && i !in list ==> r[i] == values[i]
    decreases |list|
  {
    if list == [] then
      values
    else
      var n := |list| - 1;
      assert forall i :: i in list[..n] ==> i in list;
      SimGate(gm, SimList(gm, values, list[..n]), list[n])
  }

  /** A gate that no later step simulates keeps the word it had after an earlier prefix. */
  lemma {:induction false} SimTail(gm: GateMap, values: seq<SimValue>, list: seq<nat>, j: nat, i: nat)
    requires FaninsLive(gm) && |values| == |gm| && forall k :: 0 <= k < |list| ==> Live(gm, list[k])
    requires j <= |list| && i < |values| && i !in list[j..]
    ensures SimList(gm, values, list)[i] == SimList(gm, values, list[..j])[i]
    decreases |list|
  {
    if j < |list| {
      var n := |list| - 1;
      var init := list[..n];
      assert list[j..] == init[j..] + [list[n]];
      assert init[..j] == list[..j];
      assert i != list[n] && i !in init[j..];
      SimTail(gm, values, init, j, i);
    } else {
      assert list[..j] == list;
    }
  }

  /** A depth-first list as the traversal leaves it: live gates, no UNDEF, each gate once, fanins first. */
  ghost predicate FaninOrdered(gm: GateMap, list: seq<nat>)
  {
    && (forall j :: 0 <= j < |list| ==> Live(gm, list[j]) && !gm[list[j]].value.kind.Undef?)
    && NoDup(list) && FaninsFirst(gm, list)
  }

  /** A fanin of the k-th gate of such a list is not simulated from step k on. */
  lemma FaninBefore(gm: GateMap, list: seq<nat>, k: nat, f: Ref)
    requires FaninOrdered(gm, list) && k < |list| && f in Fanins(gm[list[k]].value.kind)
    ensures f.id !in list[k..]
  {
    if Traversed(gm, f.id) {
      assert f.id in list[..k];
      var j :| 0 <= j < k && list[j] == f.id;
      forall l | k <= l < |list|
        ensures list[l] != f.id
      {
      }
    } else {
      forall l | k <= l < |list|
        ensures list[l] != f.id
      {
        assert Live(gm, list[l]) && !gm[list[l]].value.kind.Undef?;
      }
    }
  }

  /** Simulating the first k + 1 gates is simulating the first k, then gate k. */
  lemma SimStep(gm: GateMap, values: seq<SimValue>, list: seq<nat>, k: nat)
    requires FaninsLive(gm) && |values| == |gm| && forall j :: 0 <= j < |list| ==> Live(gm, list[j])
    requires k < |list|
    ensures SimList(gm, values, list[..k + 1]) == SimGate(gm, SimList(gm, values, list[..k]), list[k])
  {
    assert list[..k + 1][..k] == list[..k];
  }

  /** The k-th gate of a list without repeats keeps the word its own step gave it. */
  lemma SimOwn(gm: GateMap, values: seq<SimValue>, list: seq<nat>, k: nat)
    requires FaninsLive(gm) && |values| == |gm| && forall j :: 0 <= j < |list| ==> Live(gm, list[j])
    requires NoDup(list) && k < |list|
    ensures SimList(gm, values, list)[list[k]] == SimGate(gm, SimList(gm, values, list[..k]), list[k])[list[k]]
  {
    assert list[k] !in list[k + 1..] by {
      forall j | k + 1 <= j < |list|
        ensures list[j] != list[k]
      {
      }
    }
    SimTail(gm, values, list, k + 1, list[k]);
    SimStep(gm, values, list, k);
  }

  /** A fanin of the k-th gate of a depth-first list ends with the word it had when gate k read it. */
  lemma FaninKept(gm: GateMap, values: seq<SimValue>, list: seq<nat>, k: nat, f: Ref)
    requires FaninsLive(gm) && |values| == |gm| && FaninOrdered(gm, list) && k < |list|
    requires f in Fanins(gm[list[k]].value.kind)
    ensures f.id < |gm| && SimList(gm, values, list)[f.id] == SimList(gm, values, list[..k])[f.id]
  {
    FaninBefore(gm, list, k, f);
    SimTail(gm, values, list, k, f.id);
  }

  /**
   * After simulating a depth-first list of an acyclic circuit, in which every gate follows the gates it
   * reads, each listed AND gate holds the AND of its fanins' final words and each listed PO its
   * fanin's final word: no gate read a word that changed after it was read.
   */
  lemma SimConsistent(gm: GateMap, values: seq<SimValue>, list: seq<nat>, k: nat)
    requires FaninsLive(gm) && |values| == |gm| && FaninOrdered(gm, list) && k < |list|
    ensures var r, kind := SimList(gm, values, list), gm[list[k]].value.kind;
      && (kind.Aig? ==> r[list[k]] == AndValue(r, kind.fanin1, kind.fanin2))
      && (kind.Po? ==> r[list[k]] == RefValue(r, kind.fanin))
  {
    var kind := gm[list[k]].value.kind;
    var r, p := SimList(gm, values, list), SimList(gm, values, list[..k]);
    SimOwn(gm, values, list, k);
    match kind
    case Aig(f1, f2) =>
      assert f1 in Fanins(kind) && f2 in Fanins(kind);
      FaninKept(gm, values, list, k, f1);
      FaninKept(gm, values, list, k, f2);
      assert RefValue(r, f1) == RefValue(p, f1) && RefValue(r, f2) == RefValue(p, f2);
    case Po(f) =>
      assert f in Fanins(kind);
      FaninKept(gm, values, list, k, f);
    case _ =>
  }

  /** The words after the k-th PI gets the k-th input word, for each k in order. */
  function LoadInputs(values: seq<SimValue>, pis: seq<nat>, patterns: seq<SimValue>): (r: seq<SimValue>)
    requires |patterns| == |pis| && forall k :: 0 <= k < |pis| ==> pis[k] < |values|
    ensures |r| == |values|
    ensures forall i :: 0 <= i < |r| && i !in pis ==> r[i] == values[i]
    decreases |pis|
  {
    if pis == [] then
      values
    else
      var n := |pis| - 1;
      assert forall i :: i in pis[..n] ==> i in pis;
      LoadInputs(values, pis[..n], patterns[..n])[pis[n] := patterns[n]]
  }

  /** The last input word written to a PI is the one it keeps. */
  lemma {:induction false} LoadInputsLast(values: seq<SimValue>, pis: seq<nat>, patterns: seq<SimValue>, k: nat)
    requires |patterns| == |pis| && forall k :: 0 <= k < |pis| ==> pis[k] < |values|
    requires k < |pis| && forall l :: k < l < |pis| ==> pis[l] != pis[k]
    ensures LoadInputs(values, pis, patterns)[pis[k]] == patterns[k]
    decreases |pis|
  {
    var n := |pis| - 1;
    if k < n {
      LoadInputsLast(values, pis[..n], patterns[..n], k);
    }
  }

  /** The words after one round from words `values`: the constant's and the PIs' words set, then the list simulated. */
  function Round(gm: GateMap, pis: seq<nat>, list: seq<nat>, values: seq<SimValue>, patterns: seq<SimValue>): (r: seq<SimValue>)
    requires FaninsLive(gm) && |values| == |gm| > 0 && |patterns| == |pis|
    requires forall k :: 0 <= k < |pis| ==> pis[k] < |gm|
    requires forall k :: 0 <= k < |list| ==> Live(gm, list[k])
    ensures |r| == |gm|
  {
    SimList(gm, LoadInputs(values[0 := Zero()], pis, patterns), list)
  }

  /** What a round of simulation reads of the manager: fanins present, a word per slot, PIs and the depth-first list in the table. */
  ghost predicate SimReady(m: CirMgr)
    reads m`gateMap, m`values, m`PIs, m`dfsList
  {
    && FaninsLive(m.gateMap) && |m.values| == |m.gateMap| > 0
    && (forall k :: 0 <= k < |m.PIs| ==> m.PIs[k] < |m.gateMap|)
    && (forall k :: 0 <= k < |m.dfsList| ==> Live(m.gateMap, m.dfsList[k]))
  }

  /** A valid manager whose depth-first list names live gates is ready to simulate. */
  lemma ValidReady(m: CirMgr)
    requires m.Valid() && forall k :: 0 <= k < |m.dfsList| ==> Live(m.gateMap, m.dfsList[k])
    ensures SimReady(m)
  {
    MirrorFaninsLive(m.gateMap);
  }

  /**
   * One round of `fileSim`: the constant gets the zero word and each PI its input word, then every gate
   * of the depth-first list but the PIs is simulated in list order.
   */
  method Simulate(m: CirMgr, patterns: seq<SimValue>)
    requires SimReady(m) && |patterns| == |m.PIs|
    modifies m`values
    ensures SimReady(m)
    ensures m.values == Round(m.gateMap, m.PIs, m.dfsList, old(m.values), patterns)
  {
    LoadPatterns(m, patterns);
    SimulateList(m);
  }

  /** The first half of a round: the constant gets the zero word, then each PI its input word, in order. */
  method LoadPatterns(m: CirMgr, patterns: seq<SimValue>)
    requires SimReady(m) && |patterns| == |m.PIs|
    modifies m`values
    ensures SimReady(m)
    ensures m.values == LoadInputs(old(m.values)[0 := Zero()], m.PIs, patterns)
  {
    m.values := m.values[0 := Zero()];
    var i := 0;
    while i < |m.PIs|
      invariant i <= |m.PIs| && SimReady(m)
      invariant m.values == LoadInputs(old(m.values)[0 := Zero()], m.PIs[..i], patterns[..i])
    {
      assert m.PIs[..i + 1][..i] == m.PIs[..i] && patterns[..i + 1][..i] == patterns[..i];
      m.values := m.values[m.PIs[i] := patterns[i]];
      i := i + 1;
    }
    assert m.PIs[..i] == m.PIs && patterns[..i] == patterns;
  }

  /** The second half of a round: every gate of the depth-first list but the PIs simulated in list order. */
  method SimulateList(m: CirMgr)
    requires SimReady(m)
    modifies m`values
    ensures SimReady(m)
    ensures m.values == SimList(m.gateMap, old(m.values), m.dfsList)
  {
    var i := 0;
    while i < |m.dfsList|
      invariant i <= |m.dfsList| && SimReady(m)
      invariant m.values == SimList(m.gateMap, old(m.values), m.dfsList[..i])
    {
      var id := m.dfsList[i];
      assert m.dfsList[..i + 1][..i] == m.dfsList[..i];
      if !m.gateMap[id].value.kind.Pi? {
        m.values := SimGate(m.gateMap, m.values, id);
      }
      i := i + 1;
    }
    assert m.dfsList[..i] == m.dfsList;
  }

  /** Gates the seeding loop of `fileSim` lets through as written: those that are not PI, PO or UNDEF. */
  predicate SeededAsWritten(gm: GateMap, id: nat)
  {
    Live(gm, id) && (gm[id].value.kind.Aig? || gm[id].value.kind.Const?)
  }

  /** The first group as `fileSim` builds it: the constant, then both polarities of each listed gate let through. */
  function SeedGroupAsWritten(gm: GateMap, list: seq<nat>): (s: seq<Ref>)
    ensures |s| > 0 && s[0] == Ref(0, false)
    ensures forall r :: r in s <==> r == Ref(0, false) || (r.id in list && SeededAsWritten(gm, r.id))
    decreases |list|
  {
    if list == [] then
      [Ref(0, false)]
    else
      var n := |list| - 1;
      assert list == list[..n] + [list[n]];
      SeedGroupAsWritten(gm, list[..n]) + if SeededAsWritten(gm, list[n]) then [Ref(list[n], false), Ref(list[n], true)] else []
  }

  /**
   * The constant is pushed before the loop and again by the loop when the depth-first list reaches it
   * (a PO driven by constant 0): the refinement then files the constant twice under the zero word and
   * reports the constant as a group with itself.
   */
  lemma ConstSeededTwice()
    ensures var gm: GateMap := [Some(Gate(0, 0, Const, [], []))];
      var seed := SeedGroupAsWritten(gm, [0]);
      && multiset(seed)[Ref(0, false)] == 2
      && Class(KeyOf([Zero()]), seed, Zero()) == [Ref(0, false), Ref(0, false)]
  {
    var c := Ref(0, false);
    ConstSeed();
    var seed := [c, c, Ref(0, true)];
    assert multiset(seed) == multiset{c, c, Ref(0, true)};
    ConstClass();
  }

  /** The seeding loop over a list holding only the constant pushes the constant a second time. */
  lemma ConstSeed()
    ensures SeedGroupAsWritten([Some(Gate(0, 0, Const, [], []))], [0]) == [Ref(0, false), Ref(0, false), Ref(0, true)]
  {
    assert [0][..0] == [];
  }

  /** Under the constant's zero word, the group of the seed holds both copies of the constant. */
  lemma ConstClass()
    ensures Class(KeyOf([Zero()]), [Ref(0, false), Ref(0, false), Ref(0, true)], Zero()) == [Ref(0, false), Ref(0, false)]
  {
    ZeroKeys();
    ClassTwice(KeyOf([Zero()]), Ref(0, false), Ref(0, true), Zero());
  }

  /** A member filed twice, then one with another key: its class holds it twice. */
  lemma ClassTwice<K>(key: Ref -> K, a: Ref, b: Ref, w: K)
    requires key(a) == w && key(b) != w
    ensures Class(key, [a, a, b], w) == [a, a]
  {
    ClassSnoc(key, [], a, w);
    assert [] + [a] == [a];
    ClassSnoc(key, [a], a, w);
    ClassSnoc(key, [a, a], b, w);
    assert [a, a] + [b] == [a, a, b];
  }

  /** With the constant's zero word, the constant reads the zero word and its negation does not. */
  lemma ZeroKeys()
    ensures KeyOf([Zero()])(Ref(0, false)) == Zero() && KeyOf([Zero()])(Ref(0, true)) != Zero()
  {
    NotDiffers(Zero());
  }

  /** Gates whose two polarities join the first group: the AND gates (the constant is there once already). */
  predicate Seeded(gm: GateMap, id: nat)
  {
    Live(gm, id) && gm[id].value.kind.Aig?
  }

  /** Each reference at most once. */
  ghost predicate Once(s: seq<Ref>)
  {
    forall r :: multiset(s)[r] <= 1
  }

  /** The first group of `fileSim`: the constant, then both polarities of each listed AND gate. */
  function SeedGroup(gm: GateMap, list: seq<nat>): (s: seq<Ref>)
    ensures |s| > 0 && s[0] == Ref(0, false)
    ensures forall r :: r in s <==> r == Ref(0, false) || (r.id in list && Seeded(gm, r.id))
    decreases |list|
  {
    if list == [] then
      [Ref(0, false)]
    else
      var n := |list| - 1;
      assert list == list[..n] + [list[n]];
      SeedGroup(gm, list[..n]) + if Seeded(gm, list[n]) then [Ref(list[n], false), Ref(list[n], true)] else []
  }

  /** A depth-first list names each gate once, so the first group names each reference once. */
  lemma {:induction false} SeedOnce(gm: GateMap, list: seq<nat>)
    requires |gm| > 0 && gm[0].Some? && gm[0].value.kind.Const? && NoDup(list)
    ensures Once(SeedGroup(gm, list))
    decreases |list|
  {
    if list != [] {
      var n := |list| - 1;
      var prev := SeedGroup(gm, list[..n]);
      assert NoDup(list[..n]);
      SeedOnce(gm, list[..n]);
      if Seeded(gm, list[n]) {
        assert list[n] !in list[..n];
        forall r
          ensures multiset(SeedGroup(gm, list))[r] <= 1
        {
          assert SeedGroup(gm, list) == prev + [Ref(list[n], false), Ref(list[n], true)];
          if r.id == list[n] {
            assert r !in prev;
          }
        }
      }
    }
  }

  /** The seeding loop of `fileSim`: the constant, then both polarities of each listed AND gate. */
  method Seed(m: CirMgr)
    modifies m`fecGrps
    ensures m.fecGrps == [SeedGroup(m.gateMap, m.dfsList)]
  {
    var grp := [Ref(0, false)];
    var i := 0;
    while i < |m.dfsList|
      invariant i <= |m.dfsList|
      invariant grp == SeedGroup(m.gateMap, m.dfsList[..i])
    {
      var id := m.dfsList[i];
      assert m.dfsList[..i + 1][..i] == m.dfsList[..i];
      if Seeded(m.gateMap, id) {
        grp := grp + [Ref(id, false), Ref(id, true)];
      }
      i := i + 1;
    }
    assert m.dfsList[..i] == m.dfsList;
    m.fecGrps := [grp];
  }

  /**
   * The word a group member is filed under (`getSimValue() ^ isInverting(gate)`); a member naming no
   * gate of the table, which the groups never hold, reads the zero word.
   */
  function KeyOf(values: seq<SimValue>): (key: Ref -> SimValue)
    ensures forall r: Ref :: r.id < |values| ==> key(r) == RefValue(values, r)
  {
    (r: Ref) => if r.id < |values| then RefValue(values, r) else Zero()
  }


  /** A part of a group that names each reference once names each reference once. */
  lemma OnceWithin(h: seq<Ref>, seed: seq<Ref>)
    requires Once(seed) && multiset(h) <= multiset(seed)
    ensures Once(h)
  {
  }

  /** `sortFECGrps`'s order: the gate id of a group's first member. */
  function FirstId(h: seq<Ref>): nat
  {
    if h == [] then 0 else h[0].id
  }

  /** `sortFECGrps`: the groups reordered by the gate id of their first members. */
  method SortFECGrps(m: CirMgr)
    modifies m`fecGrps
    ensures SortedBy(m.fecGrps, FirstId) && multiset(m.fecGrps) == multiset(old(m.fecGrps))
  {
    m.fecGrps := SortBy(m.fecGrps, FirstId);
  }

  /** The filing key of each round's words. */
  function KeysOf(history: seq<seq<SimValue>>): (keys: seq<Ref -> SimValue>)
    ensures |keys| == |history| && forall k :: 0 <= k < |history| ==> keys[k] == KeyOf(history[k])
  {
    seq(|history|, k requires 0 <= k < |history| => KeyOf(history[k]))
  }

  /** One more round adds its key. */
  lemma KeysOfSnoc(history: seq<seq<SimValue>>, values: seq<SimValue>)
    ensures KeysOf(history + [values]) == KeysOf(history) + [KeyOf(values)]
  {
    assert forall k :: 0 <= k < |history| ==> (history + [values])[k] == history[k];
  }

  /** The words round k starts from: init before the first round, otherwise the words after round k - 1. */
  function Before(init: seq<SimValue>, history: seq<seq<SimValue>>, k: nat): seq<SimValue>
    requires k <= |history|
  {
    if k == 0 then init else history[k - 1]
  }

  /** The words after each round, when the rounds run in order from the words init. */
  function Histories(gm: GateMap, pis: seq<nat>, list: seq<nat>, init: seq<SimValue>, rounds: seq<seq<SimValue>>): (h: seq<seq<SimValue>>)
    requires FaninsLive(gm) && |init| == |gm| > 0
    requires (forall k :: 0 <= k < |pis| ==> pis[k] < |gm|) && (forall k :: 0 <= k < |list| ==> Live(gm, list[k]))
    requires forall k :: 0 <= k < |rounds| ==> |rounds[k]| == |pis|
    ensures |h| == |rounds| && forall k :: 0 <= k < |h| ==> |h[k]| == |gm|
    decreases |rounds|
  {
    if rounds == [] then []
    else
      var n := |rounds| - 1;
      var h := Histories(gm, pis, list, init, rounds[..n]);
      h + [Round(gm, pis, list, Before(init, h, n), rounds[n])]
  }

  /** history holds the words after each of the first |history| rounds, starting from the words init. */
  ghost predicate Simulated(gm: GateMap, pis: seq<nat>, list: seq<nat>, init: seq<SimValue>, rounds: seq<seq<SimValue>>,
                            history: seq<seq<SimValue>>)
  {
    && FaninsLive(gm) && |init| == |gm| > 0
    && (forall k :: 0 <= k < |pis| ==> pis[k] < |gm|)
    && (forall k :: 0 <= k < |list| ==> Live(gm, list[k]))
    && |history| <= |rounds| && (forall k :: 0 <= k < |rounds| ==> |rounds[k]| == |pis|)
    && history == Histories(gm, pis, list, init, rounds[..|history|])
  }

  /** The words of one more round extend the history. */
  lemma SimulatedSnoc(gm: GateMap, pis: seq<nat>, list: seq<nat>, init: seq<SimValue>, rounds: seq<seq<SimValue>>,
                      history: seq<seq<SimValue>>, values: seq<SimValue>)
    requires Simulated(gm, pis, list, init, rounds, history) && |history| < |rounds|
    requires values == Round(gm, pis, list, Before(init, history, |history|), rounds[|history|])
    ensures Simulated(gm, pis, list, init, rounds, history + [values])
  {
    var n := |history|;
    assert rounds[..n + 1][..n] == rounds[..n];
  }

  /** In a simulated history, the words after round k are one round from the words before it. */
  lemma {:induction false} SimulatedRounds(gm: GateMap, pis: seq<nat>, list: seq<nat>, init: seq<SimValue>,
                                           rounds: seq<seq<SimValue>>, history: seq<seq<SimValue>>, k: nat)
    requires Simulated(gm, pis, list, init, rounds, history) && k < |history|
    ensures history[k] == Round(gm, pis, list, Before(init, history, k), rounds[k])
    decreases |history|
  {
    var n := |history| - 1;
    var front := history[..n];
    assert rounds[..n + 1][..n] == rounds[..n];
    assert history == front + [history[n]];
    if k < n {
      SimulatedRounds(gm, pis, list, init, rounds, front, k);
      assert Before(init, front, k) == Before(init, history, k);
    }
  }

  /**
   * `fileSim` over the input words of each round: seed the first group, then per round simulate and
   * refine every group by its members' words, and finally sort the groups. The i-th entry of history
   * is the words after round i. The groups end sorted by first gate id; each names references of the
   * first group, each once, all agreeing in every round; after at least one round each has two or
   * more members, sorted by gate id; and any two different references of the first group that agree
   * in every round share a group.
   */
  method FileSim(m: CirMgr, rounds: seq<seq<SimValue>>, hash: SimValue -> nat) returns (ghost history: seq<seq<SimValue>>)
    requires m.Valid() && NoDup(m.dfsList) && forall k :: 0 <= k < |m.dfsList| ==> Live(m.gateMap, m.dfsList[k])
    requires forall k :: 0 <= k < |rounds| ==> |rounds[k]| == |m.PIs|
    modifies m`values, m`fecGrps
    ensures m.Valid() && |history| == |rounds|
    ensures Simulated(m.gateMap, m.PIs, m.dfsList, old(m.values), rounds, history)
    ensures SortedBy(m.fecGrps, FirstId)
    ensures FecKept(SeedGroup(m.gateMap, m.dfsList), KeysOf(history), m.fecGrps)
    ensures forall h :: h in m.fecGrps ==> Once(h)
    ensures |rounds| > 0 ==> forall h :: h in m.fecGrps ==> |h| >= 2 && SortedBy(h, RefId)
  {
    ValidReady(m);
    Seed(m);
    SeedOnce(m.gateMap, m.dfsList);
    history := RefineAndSort(m, rounds, hash, m.fecGrps[0]);
  }

  /** The rounds loop of `fileSim` followed by the sort of the surviving groups by their first id. */
  method RefineAndSort(m: CirMgr, rounds: seq<seq<SimValue>>, hash: SimValue -> nat, seed: seq<Ref>)
    returns (ghost history: seq<seq<SimValue>>)
    requires SimReady(m) && |seed| > 0 && Once(seed)
    requires forall k :: 0 <= k < |rounds| ==> |rounds[k]| == |m.PIs|
    modifies m`values, m`fecGrps
    ensures SimReady(m) && |history| == |rounds|
    ensures Simulated(m.gateMap, m.PIs, m.dfsList, old(m.values), rounds, history)
    ensures SortedBy(m.fecGrps, FirstId)
    ensures FecKept(seed, KeysOf(history), m.fecGrps)
    ensures forall h :: h in m.fecGrps ==> Once(h)
    ensures |rounds| > 0 ==> forall h :: h in m.fecGrps ==> |h| >= 2 && SortedBy(h, RefId)
  {
    var groups;
    groups, history := RefineRounds(m, rounds, hash, seed);
    m.fecGrps := groups;
    SortFECGrps(m);
    FecKeptPermuted(seed, KeysOf(history), groups, m.fecGrps);
    SortedGroups(seed, groups, m.fecGrps, |rounds| > 0);
  }

  /** The rounds loop of `fileSim`: simulate a round, then refine every group by the round's words. */
  method RefineRounds(m: CirMgr, rounds: seq<seq<SimValue>>, hash: SimValue -> nat, seed: seq<Ref>)
    returns (groups: seq<seq<Ref>>, ghost history: seq<seq<SimValue>>)
    requires SimReady(m) && |seed| > 0
    requires forall k :: 0 <= k < |rounds| ==> |rounds[k]| == |m.PIs|
    modifies m`values
    ensures SimReady(m) && |history| == |rounds|
    ensures Simulated(m.gateMap, m.PIs, m.dfsList, old(m.values), rounds, history)
    ensures FecKept(seed, KeysOf(history), groups)
    ensures |rounds| > 0 ==> forall h :: h in groups ==> |h| >= 2 && SortedBy(h, RefId)
  {
    groups := [seed];
    FecKeptSeed(seed, KeysOf([]));
    history := [];
    var i := 0;
    while i < |rounds|
      invariant i <= |rounds| && SimReady(m) && |history| == i
      invariant Simulated(m.gateMap, m.PIs, m.dfsList, old(m.values), rounds, history)
      invariant m.values == Before(old(m.values), history, i)
      invariant FecKept(seed, KeysOf(history), groups)
      invariant i > 0 ==> forall h :: h in groups ==> |h| >= 2 && SortedBy(h, RefId)
    {
      groups, history := RefineRound(m, rounds, rounds[i], hash, seed, old(m.values), groups, history);
      i := i + 1;
    }
  }

  /** One pass of the rounds loop: simulate round |history|, then refine every group by its words. */
  method RefineRound(m: CirMgr, ghost rounds: seq<seq<SimValue>>, patterns: seq<SimValue>, hash: SimValue -> nat, ghost seed: seq<Ref>,
                     ghost init: seq<SimValue>, groups: seq<seq<Ref>>, ghost history: seq<seq<SimValue>>)
    returns (next: seq<seq<Ref>>, ghost history': seq<seq<SimValue>>)
    requires SimReady(m) && |history| < |rounds| && patterns == rounds[|history|] && |patterns| == |m.PIs|
    requires Simulated(m.gateMap, m.PIs, m.dfsList, init, rounds, history)
    requires m.values == Before(init, history, |history|)
    requires FecKept(seed, KeysOf(history), groups)
    modifies m`values
    ensures SimReady(m) && history' == history + [m.values]
    ensures Simulated(m.gateMap, m.PIs, m.dfsList, init, rounds, history')
    ensures m.values == Before(init, history', |history'|)
    ensures FecKept(seed, KeysOf(history'), next)
    ensures forall h :: h in next ==> |h| >= 2 && SortedBy(h, RefId)
  {
    Simulate(m, patterns);
    SimulatedSnoc(m.gateMap, m.PIs, m.dfsList, init, rounds, history, m.values);
    next := Refine(KeyOf(m.values), groups, hash);
    RefineKept(seed, KeysOf(history), groups, KeyOf(m.values), next);
    KeysOfSnoc(history, m.values);
    history' := history + [m.values];
  }

  /** The sorted groups are the unsorted ones: each a part of the first group, so each names a reference once. */
  lemma SortedGroups(seed: seq<Ref>, groups: seq<seq<Ref>>, sorted: seq<seq<Ref>>, refined: bool)
    requires Once(seed) && multiset(sorted) == multiset(groups)
    requires forall h :: h in groups ==> multiset(h) <= multiset(seed)
    requires refined ==> forall h :: h in groups ==> |h| >= 2 && SortedBy(h, RefId)
    ensures forall h :: h in sorted ==> Once(h)
    ensures refined ==> forall h :: h in sorted ==> |h| >= 2 && SortedBy(h, RefId)
  {
    forall h | h in sorted
      ensures h in groups && Once(h)
    {
      assert h in multiset(sorted);
      OnceWithin(h, seed);
    }
  }
}
