/**
 * `printFloatGates` of the circuit manager: the gates that read an UNDEF gate and the gates that
 * nothing reads, each as a sorted id list. The printing itself is left out; the two lists are the result.
 */
module CirReport {
  import opened CirGate
  import opened CirGraph
  import opened CirManager
  import opened CirOpt
  import opened Sorting

  /** Reference r points at an UNDEF gate of the table (`getTypeStr() == "UNDEF"`). */
  predicate IsUndef(gm: GateMap, r: Ref)
  {
    Live(gm, r.id) && gm[r.id].value.kind.Undef?
  }

  /** `haveFloatingFanin`: an AND gate or a PO with a fanin on an UNDEF gate; false for other kinds. */
  predicate HaveFloatingFanin(gm: GateMap, g: Gate)
  {
    match g.kind
    case Aig(f1, f2) => IsUndef(gm, f1) || IsUndef(gm, f2)
    case Po(f) => IsUndef(gm, f)
    case _ => false
  }

  /** A gate has a floating fanin exactly when one of its fanins is an UNDEF gate of the table. */
  lemma FloatingFaninIff(gm: GateMap, g: Gate)
    ensures HaveFloatingFanin(gm, g) <==> exists r :: r in Fanins(g.kind) && IsUndef(gm, r)
  {
    if HaveFloatingFanin(gm, g) {
      match g.kind
      case Aig(f1, f2) =>
        assert f1 in Fanins(g.kind) && f2 in Fanins(g.kind);
      case Po(f) =>
        assert f in Fanins(g.kind);
    }
  }

  /** `haveFloatingFanin` agrees with `getFloatingFanin`: it holds exactly when the latter reports an UNDEF gate. */
  lemma FloatingFaninReported(gm: GateMap, g: Gate)
    ensures HaveFloatingFanin(gm, g) <==> FloatingFanin(gm, g).0.Some? || FloatingFanin(gm, g).1.Some?
  {
  }

  /** The ids whose gate has a floating fanin. */
  predicate Floats(gm: GateMap, j: nat)
  {
    Live(gm, j) && HaveFloatingFanin(gm, gm[j].value)
  }

  /** The ids whose gate is defined but not used. */
  predicate Unused(gm: GateMap, j: nat)
  {
    Live(gm, j) && DefinedNotUsed(gm[j].value)
  }

  function Id(n: nat): nat { n }

  /** The two reports of `printFloatGates`. */
  datatype Report = FloatingFanins | DefinedNotUsedGates

  /** Gate j belongs in the report. */
  predicate Reported(gm: GateMap, rep: Report, j: nat)
  {
    match rep
    case FloatingFanins => Floats(gm, j)
    case DefinedNotUsedGates => Unused(gm, j)
  }

  /** The ids of a gate list that belong in the report, in list order and with their multiplicity. */
  function Keep(gm: GateMap, ids: seq<nat>, rep: Report): (r: seq<nat>)
    ensures |r| <= |ids|
    ensures forall k :: 0 <= k < |r| ==> Reported(gm, rep, r[k])
  {
    if ids == [] then [] else Keep(gm, ids[..|ids| - 1], rep) + (if Reported(gm, rep, ids[|ids| - 1]) then [ids[|ids| - 1]] else [])
  }

  /** The report keeps exactly the listed ids that belong in it. */
  lemma {:induction false} KeepMembers(gm: GateMap, ids: seq<nat>, rep: Report, j: nat)
    ensures j in Keep(gm, ids, rep) <==> j in ids && Reported(gm, rep, j)
  {
    if ids != [] {
      var init := ids[..|ids| - 1];
      KeepMembers(gm, init, rep, j);
      assert ids == init + [ids[|ids| - 1]];
    }
  }

  /** Keeping from a longer list adds what the new element contributes. */
  lemma KeepSnoc(gm: GateMap, ids: seq<nat>, j: nat, rep: Report)
    ensures Keep(gm, ids + [j], rep) == Keep(gm, ids, rep) + (if Reported(gm, rep, j) then [j] else [])
  {
    assert (ids + [j])[..|ids|] == ids;
  }

  /** One loop of `printFloatGates`: the ids of a gate list that belong in the report, in list order. */
  method Collect(gm: GateMap, ids: seq<nat>, rep: Report, acc: seq<nat>) returns (acc': seq<nat>)
    ensures acc' == acc + Keep(gm, ids, rep)
  {
    acc' := acc;
    var k := 0;
    while k < |ids|
      invariant k <= |ids|
      invariant acc' == acc + Keep(gm, ids[..k], rep)
    {
      KeepSnoc(gm, ids[..k], ids[k], rep);
      assert ids[..k + 1] == ids[..k] + [ids[k]];
      if Reported(gm, rep, ids[k]) {
        acc' := acc' + [ids[k]];
      }
      k := k + 1;
    }
    assert ids[..k] == ids;
  }

  /** One half of `printFloatGates`: the reported ids of two gate lists, sorted by id. */
  method ReportOf(gm: GateMap, first: seq<nat>, second: seq<nat>, rep: Report) returns (ids: seq<nat>)
    ensures SortedBy(ids, Id) && multiset(ids) == multiset(Keep(gm, first, rep) + Keep(gm, second, rep))
    ensures forall j :: j in ids <==> (j in first || j in second) && Reported(gm, rep, j)
  {
    var acc := Collect(gm, first, rep, []);
    acc := Collect(gm, second, rep, acc);
    ids := SortBy(acc, Id);
    forall j
      ensures j in ids <==> (j in first || j in second) && Reported(gm, rep, j)
    {
      assert j in ids <==> j in multiset(acc);
      KeepMembers(gm, first, rep, j);
      KeepMembers(gm, second, rep, j);
    }
  }

  /**
   * `printFloatGates`: the POs then the AND gates with a floating fanin, and the PIs then the AND
   * gates defined but not used, each list sorted by id. An AND slot emptied by an optimisation is skipped.
   */
  method PrintFloatGates(m: CirMgr) returns (floating: seq<nat>, unused: seq<nat>)
    ensures SortedBy(floating, Id) && multiset(floating) == multiset(Keep(m.gateMap, m.POs, FloatingFanins) + Keep(m.gateMap, m.AIGs, FloatingFanins))
    ensures SortedBy(unused, Id) && multiset(unused) == multiset(Keep(m.gateMap, m.PIs, DefinedNotUsedGates) + Keep(m.gateMap, m.AIGs, DefinedNotUsedGates))
    ensures forall j :: j in floating <==> (j in m.POs || j in m.AIGs) && Floats(m.gateMap, j)
    ensures forall j :: j in unused <==> (j in m.PIs || j in m.AIGs) && Unused(m.gateMap, j)
  {
    floating := ReportOf(m.gateMap, m.POs, m.AIGs, FloatingFanins);
    unused := ReportOf(m.gateMap, m.PIs, m.AIGs, DefinedNotUsedGates);
  }

  /**
   * With gate lists that are complete for the table, the two reports cover the whole table: a gate is
   * reported floating exactly when it is an AND gate or PO reading an UNDEF gate, and unused exactly
   * when it is an AND gate or PI with no fanouts.
   */
  lemma ReportsComplete(gm: GateMap, pis: seq<nat>, pos: seq<nat>, aigs: seq<nat>, undefs: seq<nat>, floating: seq<nat>, unused: seq<nat>, j: nat)
    requires ListsOk(gm, pis, pos, aigs, undefs)
    requires forall j :: j in floating <==> (j in pos || j in aigs) && Floats(gm, j)
    requires forall j :: j in unused <==> (j in pis || j in aigs) && Unused(gm, j)
    ensures j in floating <==> Live(gm, j) && exists r :: r in Fanins(gm[j].value.kind) && IsUndef(gm, r)
    ensures j in unused <==> Live(gm, j) && (gm[j].value.kind.Aig? || gm[j].value.kind.Pi?) && gm[j].value.fanouts == []
  {
    if Live(gm, j) {
      FloatingFaninIff(gm, gm[j].value);
      DefinedNotUsedIff(gm[j].value);
    }
  }
}
