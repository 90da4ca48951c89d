/**
 * The second half of `readCircuit`: an accepted `aag` record becomes the gate table and the gate
 * lists of a manager. The gates the lines define are declared in file order, the symbol lines name
 * the pins, and then every AND line and every output is wired to the gates it reads, an UNDEF gate
 * standing in for each id no line defines. The fanout lists are then sorted and the depth-first
 * list is built.
 */
module CirRead {
  import opened Wrappers
  import opened CirDef
  import opened CirGate
  import opened CirGraph
  import opened CirAag
  import opened CirParse
  import opened CirManager
  import opened CirSim
  import opened Sorting

  /** The fanin an output or AND gate holds from its declaration until it is wired (a null pointer). */
  const Unset := Ref(0, false)

  /** The gate ids of a list of literals, in order. */
  function Ids(lits: seq<nat>): (ids: seq<nat>)
    ensures |ids| == |lits| && forall k :: 0 <= k < |lits| ==> ids[k] == lits[k] / 2
  {
    seq(|lits|, k requires 0 <= k < |lits| => lits[k] / 2)
  }

  /** The id the k-th output gets: the ids after M are the outputs', in file order. */
  function PoId(f: Aag, k: nat): nat
  {
    f.m + k + 1
  }

  function PoIds(f: Aag): (ids: seq<nat>)
    ensures |ids| == f.o && forall k :: 0 <= k < f.o ==> ids[k] == PoId(f, k)
  {
    seq(f.o, k requires 0 <= k => PoId(f, k))
  }

  /** The lists of a record have the lengths its header announces. */
  predicate Sized(f: Aag)
  {
    |f.inputs| == f.i && |f.outputs| == f.o && |f.ands| == f.a
  }

  /** The first input literals of each AND line, and the second ones. */
  function Rhs0(ands: seq<AndDef>): (lits: seq<nat>)
    ensures |lits| == |ands| && forall k :: 0 <= k < |ands| ==> lits[k] == ands[k].rhs0
  {
    seq(|ands|, k requires 0 <= k < |ands| => ands[k].rhs0)
  }

  function Rhs1(ands: seq<AndDef>): (lits: seq<nat>)
    ensures |lits| == |ands| && forall k :: 0 <= k < |ands| ==> lits[k] == ands[k].rhs1
  {
    seq(|ands|, k requires 0 <= k < |ands| => ands[k].rhs1)
  }

  /** The gate ids of the first n literals of a list: these and no others. */
  ghost function IdsTo(lits: seq<nat>, n: nat): (s: set<nat>)
    requires n <= |lits|
    ensures forall k :: 0 <= k < n ==> lits[k] / 2 in s
  {
    if n == 0 then {} else IdsTo(lits, n - 1) + {lits[n - 1] / 2}
  }

  /** An id among those of the first n literals is the id of one of them. */
  lemma {:induction false} IdsToWitness(lits: seq<nat>, n: nat, i: nat) returns (k: nat)
    requires n <= |lits| && i in IdsTo(lits, n)
    ensures k < n && lits[k] / 2 == i
  {
    if i == lits[n - 1] / 2 {
      k := n - 1;
    } else {
      k := IdsToWitness(lits, n - 1, i);
    }
  }

  /** The ids of the first n outputs. */
  ghost function PoRange(f: Aag, n: nat): (s: set<nat>)
    ensures forall i :: i in s <==> f.m < i <= f.m + n
  {
    if n == 0 then {} else PoRange(f, n - 1) + {f.m + n}
  }

  /** The ids the first lines of each section define: the constant, inputs, outputs and AND gates. */
  ghost function DeclTo(f: Aag, ni: nat, no: nat, na: nat): set<nat>
    requires ni <= |f.inputs| && na <= |f.ands|
  {
    {0} + IdsTo(f.inputs, ni) + PoRange(f, no) + IdsTo(Lhs(f.ands), na)
  }

  /** Every id some line of the record defines. */
  ghost function DefIds(f: Aag): set<nat>
    requires Sized(f)
  {
    DeclTo(f, f.i, f.o, f.a)
  }

  /** The ids read by the first ka AND lines and the first ko outputs. */
  ghost function ReadTo(f: Aag, ka: nat, ko: nat): set<nat>
    requires Sized(f) && ka <= f.a && ko <= f.o
  {
    IdsTo(Rhs0(f.ands), ka) + IdsTo(Rhs1(f.ands), ka) + IdsTo(f.outputs, ko)
  }

  /** The gates whose fanins are set once the first ka AND lines and the first ko outputs are wired. */
  ghost function WiredTo(f: Aag, ka: nat, ko: nat): set<nat>
    requires Sized(f) && ka <= f.a
  {
    IdsTo(Lhs(f.ands), ka) + PoRange(f, ko)
  }

  /**
   * The name the first n symbol lines give the k-th input (input) or the k-th output: that of the
   * last of them naming the pin, or none.
   */
  function PinName(syms: seq<Symbol>, n: nat, input: bool, k: nat): seq<byte>
    requires n <= |syms|
  {
    if n == 0 then []
    else if syms[n - 1].input == input && syms[n - 1].index == k then syms[n - 1].name
    else PinName(syms, n - 1, input, k)
  }

  /** `new CONSTGate()`. */
  function ConstGateOf(): Gate
  {
    Gate(0, 0, Const, [], [])
  }

  /** `new PIGate(id / 2, i + 2)` for the k-th input line, named by the first ns symbol lines. */
  function PiGateOf(f: Aag, k: nat, ns: nat): Gate
    requires k < |f.inputs| && ns <= |f.symbols|
  {
    Gate(f.inputs[k] / 2, k + 2, Pi, [], PinName(f.symbols, ns, true, k))
  }

  /** `new POGate(mvi + i + 1, i + inNo + 2)` for the k-th output line, reading fanin. */
  function PoGateOf(f: Aag, k: nat, ns: nat, fanin: Ref): Gate
    requires ns <= |f.symbols|
  {
    Gate(PoId(f, k), k + f.i + 2, Po(fanin), [], PinName(f.symbols, ns, false, k))
  }

  /** `new AIGGate(id / 2, i + inNo + outNo + 2)` for the k-th AND line; wired when k < ka. */
  function AndGateOf(f: Aag, k: nat, ka: nat): Gate
    requires k < |f.ands|
  {
    var d := f.ands[k];
    Gate(d.lhs / 2, k + f.i + f.o + 2,
         if k < ka then Aig(RefOf(d.rhs0), RefOf(d.rhs1)) else Aig(Unset, Unset), [], [])
  }

  /** `new UNDEFGate(id)`. */
  function UndefGateOf(id: nat): Gate
  {
    Gate(id, 0, Undef, [], [])
  }

  /** A gate without its fanout list. */
  function Bare(g: Gate): Gate
  {
    g.(fanouts := [])
  }

  // ---------------------------------------------------------------------------------------------
  // Declaration and naming

  /**
   * The table once the first ni input lines, no output lines and na AND lines are declared and the
   * first ns symbol lines are applied: those gates in their slots, unwired and with no fanouts, and
   * nothing else but the constant.
   */
  ghost predicate DeclaredUpTo(f: Aag, gm: GateMap, ni: nat, no: nat, na: nat, ns: nat)
    requires Sized(f) && ni <= f.i && no <= f.o && na <= f.a && ns <= |f.symbols|
  {
    && |gm| == f.m + f.o + 1 && gm[0] == Some(ConstGateOf())
    && (forall k :: 0 <= k < ni ==> f.inputs[k] / 2 < |gm| && gm[f.inputs[k] / 2] == Some(PiGateOf(f, k, ns)))
    && (forall k :: 0 <= k < no ==> gm[PoId(f, k)] == Some(PoGateOf(f, k, ns, Unset)))
    && (forall k :: 0 <= k < na ==> f.ands[k].lhs / 2 < |gm| && gm[f.ands[k].lhs / 2] == Some(AndGateOf(f, k, 0)))
    && (forall i :: 0 <= i < |gm| && gm[i].Some? ==> i in DeclTo(f, ni, no, na))
  }

  /** Declaring the k-th input line's gate extends the declared table by that gate. */
  lemma DeclareInputStep(f: Aag, gm: GateMap, k: nat)
    requires WellFormed(f) && k < f.i && DeclaredUpTo(f, gm, k, 0, 0, 0)
    ensures DeclaredUpTo(f, gm[f.inputs[k] / 2 := Some(PiGateOf(f, k, 0))], k + 1, 0, 0, 0)
  {
    DistinctParts(f);
    var id := f.inputs[k] / 2;
    var gm' := gm[id := Some(PiGateOf(f, k, 0))];
    forall j | 0 <= j < k
      ensures gm'[f.inputs[j] / 2] == Some(PiGateOf(f, j, 0))
    {
      assert f.inputs[j] / 2 != id;
    }
  }

  /** The input loop: one PI gate per input line, in the slot of its id and at the end of `PIs`. */
  method DeclareInputs(m: CirMgr, f: Aag)
    requires WellFormed(f) && DeclaredUpTo(f, m.gateMap, 0, 0, 0, 0) && m.PIs == []
    modifies m`gateMap, m`PIs
    ensures DeclaredUpTo(f, m.gateMap, f.i, 0, 0, 0) && m.PIs == Ids(f.inputs)
  {
    var k := 0;
    while k < f.i
      invariant k <= f.i && DeclaredUpTo(f, m.gateMap, k, 0, 0, 0) && m.PIs == Ids(f.inputs[..k])
    {
      var id := f.inputs[k] / 2;
      DeclareInputStep(f, m.gateMap, k);
      m.PIs := m.PIs + [id];
      m.gateMap := m.gateMap[id := Some(PiGateOf(f, k, 0))];
      k := k + 1;
    }
    assert f.inputs[..k] == f.inputs;
  }

  /** Declaring the k-th output line's gate extends the declared table by that gate. */
  lemma DeclareOutputStep(f: Aag, gm: GateMap, k: nat)
    requires WellFormed(f) && k < f.o && DeclaredUpTo(f, gm, f.i, k, 0, 0)
    ensures DeclaredUpTo(f, gm[PoId(f, k) := Some(PoGateOf(f, k, 0, Unset))], f.i, k + 1, 0, 0)
  {
    var gm' := gm[PoId(f, k) := Some(PoGateOf(f, k, 0, Unset))];
    forall j | 0 <= j < f.i
      ensures gm'[f.inputs[j] / 2] == Some(PiGateOf(f, j, 0))
    {
      assert f.inputs[j] / 2 <= f.m;
    }
  }

  /** The output loop: one PO gate per output line, at id M + 1 + k and at the end of `POs`. */
  method DeclareOutputs(m: CirMgr, f: Aag)
    requires WellFormed(f) && DeclaredUpTo(f, m.gateMap, f.i, 0, 0, 0) && m.POs == []
    modifies m`gateMap, m`POs
    ensures DeclaredUpTo(f, m.gateMap, f.i, f.o, 0, 0) && m.POs == PoIds(f)
  {
    var k := 0;
    while k < f.o
      invariant k <= f.o && DeclaredUpTo(f, m.gateMap, f.i, k, 0, 0) && m.POs == PoIds(f)[..k]
    {
      DeclareOutputStep(f, m.gateMap, k);
      m.POs := m.POs + [PoId(f, k)];
      m.gateMap := m.gateMap[PoId(f, k) := Some(PoGateOf(f, k, 0, Unset))];
      k := k + 1;
    }
  }

  /** Declaring the k-th AND line's gate extends the declared table by that gate. */
  lemma DeclareAndStep(f: Aag, gm: GateMap, aigs: seq<nat>, k: nat)
    requires AndDeclLoop(f, gm, aigs, k) && k < f.a
    ensures AndDeclLoop(f, gm[f.ands[k].lhs / 2 := Some(AndGateOf(f, k, 0))], aigs + [f.ands[k].lhs / 2], k + 1)
  {
    var id := f.ands[k].lhs / 2;
    assert Lhs(f.ands)[..k + 1] == Lhs(f.ands)[..k] + [f.ands[k].lhs];
    assert Ids(Lhs(f.ands)[..k + 1]) == Ids(Lhs(f.ands)[..k]) + [id];
    var gm' := gm[id := Some(AndGateOf(f, k, 0))];
    forall j | 0 <= j < f.i
      ensures gm'[f.inputs[j] / 2] == Some(PiGateOf(f, j, 0))
    {
      assert f.inputs[j] / 2 != id;
    }
    forall j | 0 <= j < k
      ensures gm'[f.ands[j].lhs / 2] == Some(AndGateOf(f, j, 0))
    {
      assert f.ands[j].lhs / 2 != id;
    }
    forall j | 0 <= j < f.o
      ensures gm'[PoId(f, j)] == gm[PoId(f, j)]
    {
    }
    assert Lhs(f.ands)[k] / 2 == id;
    assert DeclTo(f, f.i, f.o, k + 1) == DeclTo(f, f.i, f.o, k) + {id};
    assert DeclaredUpTo(f, gm', f.i, f.o, k + 1, 0);
  }

  /** The AND loop's invariant: the first k AND lines declared, their ids at the end of `AIGs`. */
  ghost predicate AndDeclLoop(f: Aag, gm: GateMap, aigs: seq<nat>, k: nat)
  {
    var holds :=
      && Lits(f) && Distinct(f) && k <= f.a && DeclaredUpTo(f, gm, f.i, f.o, k, 0)
      && aigs == Ids(Lhs(f.ands)[..k]);
    holds
  }

  /** The AND loop: one unwired AND gate per AND line, in the slot of its id and at the end of `AIGs`. */
  method DeclareAnds(m: CirMgr, f: Aag)
    requires Lits(f) && Distinct(f) && DeclaredUpTo(f, m.gateMap, f.i, f.o, 0, 0) && m.AIGs == []
    modifies m`gateMap, m`AIGs
    ensures DeclaredUpTo(f, m.gateMap, f.i, f.o, f.a, 0) && m.AIGs == Ids(Lhs(f.ands))
  {
    var k := 0;
    while k < f.a
      invariant AndDeclLoop(f, m.gateMap, m.AIGs, k)
    {
      var id := f.ands[k].lhs / 2;
      DeclareAndStep(f, m.gateMap, m.AIGs, k);
      m.AIGs := m.AIGs + [id];
      m.gateMap := m.gateMap[id := Some(AndGateOf(f, k, 0))];
      k := k + 1;
    }
    assert Lhs(f.ands)[..k] == Lhs(f.ands);
  }


  /** The id of the pin a symbol line names. */
  function PinId(f: Aag, s: Symbol): nat
    requires Sized(f) && SymbolOk(s, f.i, f.o)
  {
    if s.input then f.inputs[s.index] / 2 else PoId(f, s.index)
  }

  /** The table after `setGateName` on the pin a symbol line names. */
  function Named(f: Aag, gm: GateMap, s: Symbol): (gm': GateMap)
    requires Sized(f) && SymbolOk(s, f.i, f.o) && |gm| == f.m + f.o + 1 && PinId(f, s) < |gm| && gm[PinId(f, s)].Some?
    ensures |gm'| == |gm|
  {
    gm[PinId(f, s) := Some(gm[PinId(f, s)].value.(name := s.name))]
  }

  /** A symbol line gives an input gate the name it names it with, and leaves the other inputs alone. */
  lemma NamedInput(f: Aag, gm: GateMap, n: nat, k: nat)
    requires WellFormed(f) && n < |f.symbols| && k < f.i && |gm| == f.m + f.o + 1 && DistinctIds(f.inputs)
    requires gm[f.inputs[k] / 2] == Some(PiGateOf(f, k, n))
    requires SymbolOk(f.symbols[n], f.i, f.o) && PinId(f, f.symbols[n]) < |gm| && gm[PinId(f, f.symbols[n])].Some?
    ensures Named(f, gm, f.symbols[n])[f.inputs[k] / 2] == Some(PiGateOf(f, k, n + 1))
  {
    var s := f.symbols[n];
    assert SymbolOk(s, f.i, f.o);
    if s.input && s.index != k {
      assert f.inputs[k] / 2 != f.inputs[s.index] / 2;
    }
  }

  /** A symbol line gives an output gate the name it names it with, and leaves the other outputs alone. */
  lemma NamedOutput(f: Aag, gm: GateMap, n: nat, k: nat)
    requires WellFormed(f) && n < |f.symbols| && k < f.o && |gm| == f.m + f.o + 1
    requires gm[PoId(f, k)] == Some(PoGateOf(f, k, n, Unset))
    requires SymbolOk(f.symbols[n], f.i, f.o) && PinId(f, f.symbols[n]) < |gm| && gm[PinId(f, f.symbols[n])].Some?
    ensures Named(f, gm, f.symbols[n])[PoId(f, k)] == Some(PoGateOf(f, k, n + 1, Unset))
  {
    var s := f.symbols[n];
    assert SymbolOk(s, f.i, f.o);
    if s.input {
      assert f.inputs[s.index] / 2 <= f.m;
    }
  }

  /** A symbol line leaves the AND gates alone. */
  lemma NamedAnd(f: Aag, gm: GateMap, n: nat, k: nat)
    requires WellFormed(f) && n < |f.symbols| && k < f.a && |gm| == f.m + f.o + 1
    requires f.ands[k].lhs / 2 !in IdsOf(f.inputs)
    requires gm[f.ands[k].lhs / 2] == Some(AndGateOf(f, k, 0))
    requires SymbolOk(f.symbols[n], f.i, f.o) && PinId(f, f.symbols[n]) < |gm| && gm[PinId(f, f.symbols[n])].Some?
    ensures Named(f, gm, f.symbols[n])[f.ands[k].lhs / 2] == Some(AndGateOf(f, k, 0))
  {
    var s := f.symbols[n];
    assert SymbolOk(s, f.i, f.o);
    if s.input {
      assert f.inputs[s.index] / 2 in IdsOf(f.inputs);
    }
  }

  /** Applying one more symbol line renames its pin and nothing else. */
  lemma NameStep(f: Aag, gm: GateMap, n: nat)
    requires WellFormed(f) && n < |f.symbols| && DeclaredUpTo(f, gm, f.i, f.o, f.a, n)
    ensures DeclaredUpTo(f, Named(f, gm, f.symbols[n]), f.i, f.o, f.a, n + 1)
  {
    DistinctParts(f);
    var s := f.symbols[n];
    assert SymbolOk(s, f.i, f.o);
    if s.input {
      assert gm[f.inputs[s.index] / 2] == Some(PiGateOf(f, s.index, n));
    } else {
      assert gm[PoId(f, s.index)] == Some(PoGateOf(f, s.index, n, Unset));
    }
    var gm' := Named(f, gm, s);
    forall k | 0 <= k < f.i
      ensures gm'[f.inputs[k] / 2] == Some(PiGateOf(f, k, n + 1))
    {
      NamedInput(f, gm, n, k);
    }
    forall k | 0 <= k < f.o
      ensures gm'[PoId(f, k)] == Some(PoGateOf(f, k, n + 1, Unset))
    {
      NamedOutput(f, gm, n, k);
    }
    forall k | 0 <= k < f.a
      ensures gm'[f.ands[k].lhs / 2] == Some(AndGateOf(f, k, 0))
    {
      NamedAnd(f, gm, n, k);
    }
  }

  /** The symbol loop's invariant: the first n symbol lines applied, with the pin lists in file order. */
  ghost predicate NameLoop(f: Aag, gm: GateMap, pis: seq<nat>, pos: seq<nat>, n: nat)
  {
    var holds :=
      && WellFormed(f) && n <= |f.symbols| && DeclaredUpTo(f, gm, f.i, f.o, f.a, n)
      && pis == Ids(f.inputs) && pos == PoIds(f);
    holds
  }

  /**
   * One iteration of the symbol loop: `setGateName` on the pin the n-th symbol line names, found
   * through `PIs` or `POs`.
   */
  method NamePin(m: CirMgr, f: Aag, n: nat)
    requires NameLoop(f, m.gateMap, m.PIs, m.POs, n) && n < |f.symbols|
    modifies m`gateMap
    ensures NameLoop(f, m.gateMap, m.PIs, m.POs, n + 1)
  {
    var s := f.symbols[n];
    NameStep(f, m.gateMap, n);
    var id := if s.input then m.PIs[s.index] else m.POs[s.index];
    assert id == PinId(f, s);
    m.gateMap := m.gateMap[id := Some(m.gateMap[id].value.(name := s.name))];
  }

  /** The symbol loop. */
  method NamePins(m: CirMgr, f: Aag)
    requires WellFormed(f) && DeclaredUpTo(f, m.gateMap, f.i, f.o, f.a, 0)
    requires m.PIs == Ids(f.inputs) && m.POs == PoIds(f)
    modifies m`gateMap
    ensures DeclaredUpTo(f, m.gateMap, f.i, f.o, f.a, |f.symbols|)
  {
    var n := 0;
    while n < |f.symbols|
      invariant NameLoop(f, m.gateMap, m.PIs, m.POs, n)
    {
      NamePin(m, f, n);
      n := n + 1;
    }
  }

  // ---------------------------------------------------------------------------------------------
  // Wiring

  /** Facts of an accepted record the construction relies on: list lengths and literal ids in range. */
  ghost predicate Lits(f: Aag)
  {
    && Sized(f)
    && (forall k :: 0 <= k < f.i ==> 1 <= f.inputs[k] / 2 <= f.m)
    && (forall k :: 0 <= k < f.o ==> f.outputs[k] / 2 <= f.m)
    && (forall k :: 0 <= k < f.a ==>
          1 <= f.ands[k].lhs / 2 <= f.m && f.ands[k].rhs0 / 2 <= f.m && f.ands[k].rhs1 / 2 <= f.m)
  }

  /** No id is defined twice: input ids and AND ids are pairwise different. */
  ghost predicate Distinct(f: Aag)
  {
    && (forall j, k :: 0 <= j < k < |f.inputs| ==> f.inputs[j] / 2 != f.inputs[k] / 2)
    && (forall j, k :: 0 <= j < k < |f.ands| ==> f.ands[j].lhs / 2 != f.ands[k].lhs / 2)
    && (forall j, k :: 0 <= j < |f.inputs| && 0 <= k < |f.ands| ==> f.inputs[j] / 2 != f.ands[k].lhs / 2)
  }

  /** An accepted record has both. */
  lemma WellFormedParts(f: Aag)
    requires WellFormed(f)
    ensures Lits(f) && Distinct(f)
  {
    DistinctParts(f);
    forall j, k | 0 <= j < |f.inputs| && 0 <= k < |f.ands|
      ensures f.inputs[j] / 2 != f.ands[k].lhs / 2
    {
      assert f.inputs[j] / 2 in IdsOf(f.inputs);
    }
  }

  /** Every id some line defines holds a gate. */
  ghost predicate Defined(f: Aag, gm: GateMap)
    requires Sized(f)
  {
    forall i :: i in DefIds(f) ==> Live(gm, i)
  }

  /**
   * The table while the lines are wired, up to ka AND lines and ko outputs: every line's gate in its
   * slot with its line number and name, the wired ones reading their literals and the others
   * unwired, every declared id holding a gate, and output gates only after M.
   */
  ghost predicate Shape(f: Aag, gm: GateMap, ka: nat, ko: nat)
    requires Sized(f) && ka <= f.a && ko <= f.o
  {
    && |gm| == f.m + f.o + 1
    && gm[0].Some? && Bare(gm[0].value) == ConstGateOf()
    && (forall k :: 0 <= k < f.i ==> Live(gm, f.inputs[k] / 2) && Bare(gm[f.inputs[k] / 2].value) == PiGateOf(f, k, |f.symbols|))
    && (forall k :: 0 <= k < f.o ==>
          gm[PoId(f, k)] == Some(PoGateOf(f, k, |f.symbols|, if k < ko then RefOf(f.outputs[k]) else Unset)))
    && (forall k :: 0 <= k < f.a ==> Live(gm, f.ands[k].lhs / 2) && Bare(gm[f.ands[k].lhs / 2].value) == AndGateOf(f, k, ka))
    && Defined(f, gm)
    && (forall i :: 0 <= i < |gm| && gm[i].Some? && gm[i].value.kind.Po? ==> i > f.m)
  }

  /**
   * The UNDEF gates once the ids in rd have been looked up: a slot no line defines holds an UNDEF
   * gate exactly when its id is in the list u, which holds each id once, and exactly the ids read
   * and not defined.
   */
  ghost predicate Undefs(f: Aag, gm: GateMap, u: seq<nat>, rd: set<nat>)
    requires Sized(f)
  {
    && (forall i :: 0 <= i < |gm| && i !in DefIds(f) ==>
          (gm[i].Some? <==> i in u) && (gm[i].Some? ==> Bare(gm[i].value) == UndefGateOf(i)))
    && NoDup(u)
    && (forall i: nat :: i in u <==> i < |gm| && i !in DefIds(f) && i in rd)
  }

  /** Fanouts mirror fanins for the consumers in w; no gate lists a consumer outside w. */
  ghost predicate WiredMirror(gm: GateMap, w: set<nat>)
  {
    forall p: nat, c: nat, b: bool :: Outs(gm, p)[Ref(c, b)] == if c in w then Ins(gm, c)[Ref(p, b)] else 0
  }

  /** One instance of the mirror. */
  lemma MirrorAt(gm: GateMap, w: set<nat>, p: nat, c: nat, b: bool)
    requires WiredMirror(gm, w)
    ensures Outs(gm, p)[Ref(c, b)] == if c in w then Ins(gm, c)[Ref(p, b)] else 0
  {
  }

  /** Everything that holds after ka AND lines and ko outputs are wired. */
  ghost predicate Wiring(f: Aag, gm: GateMap, u: seq<nat>, ka: nat, ko: nat)
    requires Sized(f) && ka <= f.a && ko <= f.o
  {
    var holds := Shape(f, gm, ka, ko) && Undefs(f, gm, u, ReadTo(f, ka, ko)) && WiredMirror(gm, WiredTo(f, ka, ko));
    holds
  }

  /** `getGate(id)`, with a new UNDEF gate in the table and at the end of `UNDEFs` when it finds none. */
  function Ensure(gm: GateMap, u: seq<nat>, id: nat): (res: (GateMap, seq<nat>))
    requires id < |gm|
    ensures |res.0| == |gm| && Live(res.0, id)
    ensures forall i :: 0 <= i < |gm| && gm[i].Some? ==> res.0[i] == gm[i]
  {
    if gm[id].Some? then (gm, u) else (gm[id := Some(UndefGateOf(id))], u + [id])
  }

  /** `setFanin(r, num)` on the gate with id c. */
  function FaninAt(gm: GateMap, c: nat, r: Ref, num: int): (gm': GateMap)
    requires Live(gm, c)
    ensures |gm'| == |gm| && forall i :: 0 <= i < |gm| ==> gm'[i].Some? == gm[i].Some?
  {
    gm[c := Some(SetFanin(gm[c].value, r, num).1)]
  }

  /** `setFanout(e)` on the gate with id p. */
  function FanoutAt(gm: GateMap, p: nat, e: Ref): (gm': GateMap)
    requires Live(gm, p)
    ensures |gm'| == |gm| && forall i :: 0 <= i < |gm| ==> gm'[i].Some? == gm[i].Some?
  {
    gm[p := Some(SetFanout(gm[p].value, e).1)]
  }

  /** The four calls that wire AND gate c to r1 and r2. */
  function AndWires(gm: GateMap, c: nat, r1: Ref, r2: Ref): (gm': GateMap)
    requires Live(gm, c) && Live(gm, r1.id) && Live(gm, r2.id)
    ensures |gm'| == |gm|
  {
    var g1 := FaninAt(gm, c, r1, 1);
    var g2 := FanoutAt(g1, r1.id, Ref(c, r1.inv));
    var g3 := FaninAt(g2, c, r2, 2);
    FanoutAt(g3, r2.id, Ref(c, r2.inv))
  }

  /** The two calls that wire output gate c to r. */
  function PoWires(gm: GateMap, c: nat, r: Ref): (gm': GateMap)
    requires Live(gm, c) && Live(gm, r.id)
    ensures |gm'| == |gm|
  {
    FanoutAt(FaninAt(gm, c, r, 1), r.id, Ref(c, r.inv))
  }

  /** One step of the AND fanin loop: both fanins looked up (or made) in turn, then wired. */
  function AndWired(gm: GateMap, u: seq<nat>, c: nat, r1: Ref, r2: Ref): (GateMap, seq<nat>)
    requires Live(gm, c) && r1.id < |gm| && r2.id < |gm|
  {
    var (g1, u1) := Ensure(gm, u, r1.id);
    var (g2, u2) := Ensure(g1, u1, r2.id);
    (AndWires(g2, c, r1, r2), u2)
  }

  /** One step of the output fanin loop: the fanin looked up (or made), then wired. */
  function PoWired(gm: GateMap, u: seq<nat>, c: nat, r: Ref): (GateMap, seq<nat>)
    requires Live(gm, c) && r.id < |gm|
  {
    var (g1, u1) := Ensure(gm, u, r.id);
    (PoWires(g1, c, r), u1)
  }

  /**
   * One iteration of the AND fanin loop, corrected: fanin 2 is looked up only after a missing fanin 1
   * has been made, so a literal read twice yields one UNDEF gate (compare `AndWiredAsWritten`).
   */
  method WireAnd(m: CirMgr, c: nat, r1: Ref, r2: Ref)
    requires Live(m.gateMap, c) && r1.id < |m.gateMap| && r2.id < |m.gateMap|
    modifies m`gateMap, m`UNDEFs
    ensures (m.gateMap, m.UNDEFs) == AndWired(old(m.gateMap), old(m.UNDEFs), c, r1, r2)
  {
    var fin1 := m.GetGate(r1.id);
    if fin1.None? {
      m.UNDEFs := m.UNDEFs + [r1.id];
      m.gateMap := m.gateMap[r1.id := Some(UndefGateOf(r1.id))];
    }
    var fin2 := m.GetGate(r2.id);
    if fin2.None? {
      m.UNDEFs := m.UNDEFs + [r2.id];
      m.gateMap := m.gateMap[r2.id := Some(UndefGateOf(r2.id))];
    }
    m.gateMap := m.gateMap[c := Some(SetFanin(m.gateMap[c].value, r1, 1).1)];
    m.gateMap := m.gateMap[r1.id := Some(SetFanout(m.gateMap[r1.id].value, Ref(c, r1.inv)).1)];
    m.gateMap := m.gateMap[c := Some(SetFanin(m.gateMap[c].value, r2, 2).1)];
    m.gateMap := m.gateMap[r2.id := Some(SetFanout(m.gateMap[r2.id].value, Ref(c, r2.inv)).1)];
  }

  /**
   * The AND fanin step as cirMgr.cpp writes it: both fanins are looked up before either missing one
   * is made. When both literals name the same undefined id, two UNDEF gates are made for it: both
   * go to `UNDEFs`, the table keeps the second, and the first one, which receives the fanout for
   * fanin 1, is no longer in the table.
   */
  function AndWiredAsWritten(gm: GateMap, u: seq<nat>, c: nat, r1: Ref, r2: Ref): (res: (GateMap, seq<nat>))
    requires Live(gm, c) && r1.id < |gm| && r2.id < |gm|
    ensures |res.0| == |gm|
  {
    var lost := gm[r1.id].None? && r1.id == r2.id;
    var (g1, u1) := Ensure(gm, u, r1.id);
    var g2 := if gm[r2.id].None? then g1[r2.id := Some(UndefGateOf(r2.id))] else g1;
    var u2 := if gm[r2.id].None? then u1 + [r2.id] else u1;
    var h1 := FaninAt(g2, c, r1, 1);
    var h2 := if lost then h1 else FanoutAt(h1, r1.id, Ref(c, r1.inv));
    var h3 := FaninAt(h2, c, r2, 2);
    (FanoutAt(h3, r2.id, Ref(c, r2.inv)), u2)
  }

  /** Unless both fanins name one missing id, the step as written and the corrected one agree. */
  lemma AndWiredAgrees(gm: GateMap, u: seq<nat>, c: nat, r1: Ref, r2: Ref)
    requires Live(gm, c) && r1.id < |gm| && r2.id < |gm|
    requires !(gm[r1.id].None? && r1.id == r2.id)
    ensures AndWiredAsWritten(gm, u, c, r1, r2) == AndWired(gm, u, c, r1, r2)
  {
  }

  /** The table of the file `aag 2 0 0 0 1` with the single AND line `4 2 2` before its fanins are wired. */
  function DoubleRead(): GateMap
  {
    [Some(ConstGateOf()), None, Some(Gate(2, 2, Aig(Unset, Unset), [], []))]
  }

  /**
   * Gate 2 of `DoubleRead` reads the undefined id 1 twice. As written, id 1 enters `UNDEFs` twice
   * and the table's gate 1 lists gate 2 once while gate 2 reads it twice: fanouts no longer mirror
   * fanins.
   */
  lemma DoubleUndef()
    ensures AndWiredAsWritten(DoubleRead(), [], 2, Ref(1, false), Ref(1, false))
         == ([Some(ConstGateOf()), Some(Gate(1, 0, Undef, [Ref(2, false)], [])),
              Some(Gate(2, 2, Aig(Ref(1, false), Ref(1, false)), [], []))], [1, 1])
    ensures !Mirror(AndWiredAsWritten(DoubleRead(), [], 2, Ref(1, false), Ref(1, false)).0)
  {
    var gm := DoubleRead();
    var r := Ref(1, false);
    var e := gm[1 := Some(UndefGateOf(1))];
    assert gm[1].None? && [] + [1] == [1] && [1] + [1] == [1, 1];
    assert Ensure(gm, [], 1) == (e, [1]);
    assert e[1 := Some(UndefGateOf(1))] == e;
    var h1 := FaninAt(e, 2, r, 1);
    var h3 := FaninAt(h1, 2, r, 2);
    var g := FanoutAt(h3, 1, Ref(2, false));
    assert h1[2] == Some(Gate(2, 2, Aig(r, Unset), [], []));
    assert h3[2] == Some(Gate(2, 2, Aig(r, r), [], [])) && h3[1] == e[1];
    assert g[1] == Some(Gate(1, 0, Undef, [Ref(2, false)], []));
    assert g == [Some(ConstGateOf()), Some(Gate(1, 0, Undef, [Ref(2, false)], [])), Some(Gate(2, 2, Aig(r, r), [], []))];
    assert AndWiredAsWritten(gm, [], 2, r, r) == (g, [1, 1]);
    assert Outs(g, 1)[Ref(2, false)] == 1 && Ins(g, 2)[Ref(1, false)] == 2;
  }

  /** The corrected step on `DoubleRead` makes one UNDEF gate for id 1 and gives it both fanouts. */
  lemma DoubleUndefFixed()
    ensures AndWired(DoubleRead(), [], 2, Ref(1, false), Ref(1, false))
         == ([Some(ConstGateOf()), Some(Gate(1, 0, Undef, [Ref(2, false), Ref(2, false)], [])),
              Some(Gate(2, 2, Aig(Ref(1, false), Ref(1, false)), [], []))], [1])
  {
    var gm := DoubleRead();
    var r := Ref(1, false);
    var e := gm[1 := Some(UndefGateOf(1))];
    assert gm[1].None? && [] + [1] == [1];
    assert Ensure(gm, [], 1) == (e, [1]);
    assert Ensure(e, [1], 1) == (e, [1]);
    var h1 := FaninAt(e, 2, r, 1);
    var h2 := FanoutAt(h1, 1, Ref(2, false));
    var h3 := FaninAt(h2, 2, r, 2);
    var g := FanoutAt(h3, 1, Ref(2, false));
    assert h1[2] == Some(Gate(2, 2, Aig(r, Unset), [], []));
    assert h2[1] == Some(Gate(1, 0, Undef, [Ref(2, false)], []));
    assert h3[2] == Some(Gate(2, 2, Aig(r, r), [], [])) && h3[1] == h2[1];
    assert [Ref(2, false)] + [Ref(2, false)] == [Ref(2, false), Ref(2, false)];
    assert g[1] == Some(Gate(1, 0, Undef, [Ref(2, false), Ref(2, false)], []));
    assert g == [Some(ConstGateOf()), Some(Gate(1, 0, Undef, [Ref(2, false), Ref(2, false)], [])), Some(Gate(2, 2, Aig(r, r), [], []))];
    assert AndWires(e, 2, r, r) == g;
  }


  /** One iteration of the output fanin loop. */
  method WireOutput(m: CirMgr, c: nat, r: Ref)
    requires Live(m.gateMap, c) && r.id < |m.gateMap|
    modifies m`gateMap, m`UNDEFs
    ensures (m.gateMap, m.UNDEFs) == PoWired(old(m.gateMap), old(m.UNDEFs), c, r)
  {
    var fin := m.GetGate(r.id);
    if fin.None? {
      m.UNDEFs := m.UNDEFs + [r.id];
      m.gateMap := m.gateMap[r.id := Some(UndefGateOf(r.id))];
    }
    m.gateMap := m.gateMap[c := Some(SetFanin(m.gateMap[c].value, r, 1).1)];
    m.gateMap := m.gateMap[r.id := Some(SetFanout(m.gateMap[r.id].value, Ref(c, r.inv)).1)];
  }

  // ---------------------------------------------------------------------------------------------
  // The wiring invariant

  /** A gate of the fully declared table lists no fanout, and only an output gate sits after M. */
  lemma DeclaredSlot(f: Aag, gm: GateMap, i: nat)
    requires Lits(f) && DeclaredUpTo(f, gm, f.i, f.o, f.a, |f.symbols|) && Live(gm, i)
    ensures gm[i].value.fanouts == []
    ensures gm[i].value.kind.Po? ==> i > f.m
  {
    assert i in DeclTo(f, f.i, f.o, f.a);
    if i in IdsTo(f.inputs, f.i) {
      var k := IdsToWitness(f.inputs, f.i, i);
      assert gm[i] == Some(PiGateOf(f, k, |f.symbols|));
    } else if i in IdsTo(Lhs(f.ands), f.a) {
      var k := IdsToWitness(Lhs(f.ands), f.a, i);
      assert gm[i] == Some(AndGateOf(f, k, 0));
    } else if i != 0 {
      assert i in PoRange(f, f.o);
      assert gm[PoId(f, i - f.m - 1)] == Some(PoGateOf(f, i - f.m - 1, |f.symbols|, Unset));
    }
  }

  /** Every id a line defines holds a gate once all lines are declared. */
  lemma DeclaredLive(f: Aag, gm: GateMap, i: nat)
    requires Lits(f) && DeclaredUpTo(f, gm, f.i, f.o, f.a, |f.symbols|) && i in DefIds(f)
    ensures Live(gm, i)
  {
    if i in IdsTo(f.inputs, f.i) {
      var k := IdsToWitness(f.inputs, f.i, i);
    } else if i in IdsTo(Lhs(f.ands), f.a) {
      var k := IdsToWitness(Lhs(f.ands), f.a, i);
    } else if i != 0 {
      assert i in PoRange(f, f.o);
      assert gm[PoId(f, i - f.m - 1)].Some?;
    }
  }

  /** The declared and named table is where wiring starts: nothing wired, nothing read, no UNDEF gate. */
  lemma WiringStart(f: Aag, gm: GateMap)
    requires Lits(f) && DeclaredUpTo(f, gm, f.i, f.o, f.a, |f.symbols|)
    ensures Wiring(f, gm, [], 0, 0)
  {
    forall i | 0 <= i < |gm| && gm[i].Some?
      ensures gm[i].value.fanouts == [] && (gm[i].value.kind.Po? ==> i > f.m)
    {
      DeclaredSlot(f, gm, i);
    }
    forall i | i in DefIds(f)
      ensures Live(gm, i)
    {
      DeclaredLive(f, gm, i);
    }
    assert WiredTo(f, 0, 0) == {};
    assert ReadTo(f, 0, 0) == {};
  }

  /** A new UNDEF gate goes in a slot no line defines, so the declared gates keep their shape. */
  lemma EnsureShape(f: Aag, gm: GateMap, u: seq<nat>, ka: nat, ko: nat, id: nat, g: GateMap, u': seq<nat>)
    requires Sized(f) && ka <= f.a && ko <= f.o && Shape(f, gm, ka, ko)
    requires id < |gm| && (g, u') == Ensure(gm, u, id)
    ensures Shape(f, g, ka, ko)
  {
    if gm[id].None? {
      assert id !in DefIds(f);
    }
  }

  /** Making an UNDEF gate for an id read for the first time adds it to the UNDEF list, once. */
  lemma EnsureUndefs(f: Aag, gm: GateMap, u: seq<nat>, rd: set<nat>, id: nat, g: GateMap, u': seq<nat>)
    requires Sized(f) && Defined(f, gm) && Undefs(f, gm, u, rd)
    requires id < |gm| && (g, u') == Ensure(gm, u, id)
    ensures Undefs(f, g, u', rd + {id})
  {
    if gm[id].None? {
      assert id !in DefIds(f);
      assert id !in u;
    }
  }

  /** A new UNDEF gate reads nothing and lists nothing, so no slot's edge counts change. */
  lemma EnsureCounts(gm: GateMap, u: seq<nat>, id: nat, g: GateMap, u': seq<nat>, i: nat)
    requires id < |gm| && (g, u') == Ensure(gm, u, id)
    ensures Outs(g, i) == Outs(gm, i) && Ins(g, i) == Ins(gm, i)
  {
  }

  /** Hence the mirror of the wired gates survives the lookup. */
  lemma EnsureMirror(gm: GateMap, u: seq<nat>, w: set<nat>, id: nat, g: GateMap, u': seq<nat>)
    requires WiredMirror(gm, w) && id < |gm| && (g, u') == Ensure(gm, u, id)
    ensures WiredMirror(g, w)
  {
    forall p: nat, c: nat, b: bool
      ensures Outs(g, p)[Ref(c, b)] == if c in w then Ins(g, c)[Ref(p, b)] else 0
    {
      EnsureCounts(gm, u, id, g, u', p);
      EnsureCounts(gm, u, id, g, u', c);
    }
  }

  /** The gate in slot i once AND gate c reads r1 and r2: c's fanins set, one fanout entry per fanin. */
  function AndWiredGate(gt: Gate, i: nat, c: nat, r1: Ref, r2: Ref): Gate
  {
    gt.(kind := if i == c then Aig(r1, r2) else gt.kind,
        fanouts := gt.fanouts + (if i == r1.id then [Ref(c, r1.inv)] else []) + (if i == r2.id then [Ref(c, r2.inv)] else []))
  }

  /** Wiring an AND gate changes each slot as `AndWiredGate` says. */
  lemma AndWiresSlot(gm: GateMap, c: nat, r1: Ref, r2: Ref, i: nat)
    requires Live(gm, c) && gm[c].value.kind.Aig? && Live(gm, r1.id) && Live(gm, r2.id)
    requires !gm[r1.id].value.kind.Po? && !gm[r2.id].value.kind.Po? && i < |gm|
    ensures AndWires(gm, c, r1, r2)[i] == if gm[i].Some? then Some(AndWiredGate(gm[i].value, i, c, r1, r2)) else None
  {
    var g1 := FaninAt(gm, c, r1, 1);
    var g2 := FanoutAt(g1, r1.id, Ref(c, r1.inv));
    var g3 := FaninAt(g2, c, r2, 2);
    if gm[i].Some? {
      var gt := gm[i].value;
      var e1: seq<Ref> := if i == r1.id then [Ref(c, r1.inv)] else [];
      var e2: seq<Ref> := if i == r2.id then [Ref(c, r2.inv)] else [];
      assert g3[i].value.fanouts == gt.fanouts + e1;
      assert AndWires(gm, c, r1, r2)[i].value.fanouts == gt.fanouts + e1 + e2;
    }
  }

  /** The gate in slot i once output gate c reads r: c's fanin set, one fanout entry at r. */
  function PoWiredGate(gt: Gate, i: nat, c: nat, r: Ref): Gate
  {
    gt.(kind := if i == c then Po(r) else gt.kind,
        fanouts := gt.fanouts + if i == r.id then [Ref(c, r.inv)] else [])
  }

  /** Wiring an output gate changes each slot as `PoWiredGate` says. */
  lemma PoWiresSlot(gm: GateMap, c: nat, r: Ref, i: nat)
    requires Live(gm, c) && gm[c].value.kind.Po? && Live(gm, r.id) && !gm[r.id].value.kind.Po? && i < |gm|
    ensures PoWires(gm, c, r)[i] == if gm[i].Some? then Some(PoWiredGate(gm[i].value, i, c, r)) else None
  {
    var g1 := FaninAt(gm, c, r, 1);
    if gm[i].Some? {
      var gt := gm[i].value;
      assert g1[i].value.fanouts == gt.fanouts;
      assert PoWires(gm, c, r)[i].value.fanouts == gt.fanouts + if i == r.id then [Ref(c, r.inv)] else [];
    }
  }

  /** An id no one of the first n literals has is not among their ids. */
  lemma {:induction false} IdsToOutside(lits: seq<nat>, n: nat, i: nat)
    requires n <= |lits| && forall k :: 0 <= k < n ==> lits[k] / 2 != i
    ensures i !in IdsTo(lits, n)
  {
    if n > 0 {
      IdsToOutside(lits, n - 1, i);
    }
  }

  /** The ka-th AND line adds its two fanin ids to the ids read and its own id, new, to the wired ones. */
  lemma AndReadWired(f: Aag, ka: nat, ko: nat)
    requires Lits(f) && Distinct(f) && ka < f.a && ko <= f.o
    ensures ReadTo(f, ka + 1, ko) == ReadTo(f, ka, ko) + {f.ands[ka].rhs0 / 2} + {f.ands[ka].rhs1 / 2}
    ensures WiredTo(f, ka + 1, ko) == WiredTo(f, ka, ko) + {f.ands[ka].lhs / 2}
    ensures f.ands[ka].lhs / 2 !in WiredTo(f, ka, ko)
  {
    assert Rhs0(f.ands)[ka] == f.ands[ka].rhs0 && Rhs1(f.ands)[ka] == f.ands[ka].rhs1;
    assert Lhs(f.ands)[ka] == f.ands[ka].lhs;
    IdsToOutside(Lhs(f.ands), ka, f.ands[ka].lhs / 2);
  }

  /** The ko-th output adds its fanin id to the ids read and its own id, new, to the wired ones. */
  lemma PoReadWired(f: Aag, ka: nat, ko: nat)
    requires Lits(f) && ka <= f.a && ko < f.o
    ensures ReadTo(f, ka, ko + 1) == ReadTo(f, ka, ko) + {f.outputs[ko] / 2}
    ensures WiredTo(f, ka, ko + 1) == WiredTo(f, ka, ko) + {PoId(f, ko)}
    ensures PoId(f, ko) !in WiredTo(f, ka, ko)
  {
    forall k | 0 <= k < ka
      ensures Lhs(f.ands)[k] / 2 != PoId(f, ko)
    {
      assert Lhs(f.ands)[k] == f.ands[k].lhs;
    }
    IdsToOutside(Lhs(f.ands), ka, PoId(f, ko));
  }

  /** Wiring the ka-th AND line's gate sets its fanins to the line's literals and keeps every other gate's shape. */
  lemma AndShape(f: Aag, gm: GateMap, ka: nat, ko: nat, c: nat, r1: Ref, r2: Ref)
    requires Lits(f) && Distinct(f) && ka < f.a && ko <= f.o && Shape(f, gm, ka, ko)
    requires c == f.ands[ka].lhs / 2 && r1 == RefOf(f.ands[ka].rhs0) && r2 == RefOf(f.ands[ka].rhs1)
    requires Live(gm, r1.id) && Live(gm, r2.id)
    ensures Live(gm, c) && gm[c].value.kind.Aig? && !gm[r1.id].value.kind.Po? && !gm[r2.id].value.kind.Po?
    ensures Shape(f, AndWires(gm, c, r1, r2), ka + 1, ko)
  {
    assert Bare(gm[c].value) == AndGateOf(f, ka, ka);
    var g := AndWires(gm, c, r1, r2);
    AndWiresSlot(gm, c, r1, r2, 0);
    forall k | 0 <= k < f.i
      ensures Live(g, f.inputs[k] / 2) && Bare(g[f.inputs[k] / 2].value) == PiGateOf(f, k, |f.symbols|)
    {
      AndWiresSlot(gm, c, r1, r2, f.inputs[k] / 2);
    }
    forall k | 0 <= k < f.o
      ensures g[PoId(f, k)] == Some(PoGateOf(f, k, |f.symbols|, if k < ko then RefOf(f.outputs[k]) else Unset))
    {
      AndWiresSlot(gm, c, r1, r2, PoId(f, k));
    }
    forall k | 0 <= k < f.a
      ensures Live(g, f.ands[k].lhs / 2) && Bare(g[f.ands[k].lhs / 2].value) == AndGateOf(f, k, ka + 1)
    {
      AndWiresSlot(gm, c, r1, r2, f.ands[k].lhs / 2);
    }
    forall i | i in DefIds(f)
      ensures Live(g, i)
    {
      AndWiresSlot(gm, c, r1, r2, i);
    }
    forall i | 0 <= i < |g| && g[i].Some? && g[i].value.kind.Po?
      ensures i > f.m
    {
      AndWiresSlot(gm, c, r1, r2, i);
    }
  }

  /** Wiring a declared AND gate leaves the UNDEF gates as they were, up to their fanout lists. */
  lemma AndUndefs(f: Aag, gm: GateMap, u: seq<nat>, rd: set<nat>, c: nat, r1: Ref, r2: Ref)
    requires Sized(f) && c in DefIds(f) && Undefs(f, gm, u, rd)
    requires Live(gm, c) && gm[c].value.kind.Aig? && Live(gm, r1.id) && Live(gm, r2.id)
    requires !gm[r1.id].value.kind.Po? && !gm[r2.id].value.kind.Po?
    ensures Undefs(f, AndWires(gm, c, r1, r2), u, rd)
  {
    var g := AndWires(gm, c, r1, r2);
    forall i | 0 <= i < |g| && i !in DefIds(f)
      ensures (g[i].Some? <==> i in u) && (g[i].Some? ==> Bare(g[i].value) == UndefGateOf(i))
    {
      AndWiresSlot(gm, c, r1, r2, i);
    }
  }

  /** The fanout entries an AND wiring appends to a gate: one per fanin that reads it. */
  lemma AndWiredOuts(gt: Gate, i: nat, c: nat, r1: Ref, r2: Ref, d: nat, b: bool)
    ensures multiset(AndWiredGate(gt, i, c, r1, r2).fanouts)[Ref(d, b)] ==
            multiset(gt.fanouts)[Ref(d, b)] + (if d == c && Ref(i, b) == r1 then 1 else 0) + (if d == c && Ref(i, b) == r2 then 1 else 0)
  {
    var e1: seq<Ref> := if i == r1.id then [Ref(c, r1.inv)] else [];
    var e2: seq<Ref> := if i == r2.id then [Ref(c, r2.inv)] else [];
    assert AndWiredGate(gt, i, c, r1, r2).fanouts == gt.fanouts + e1 + e2;
    assert multiset(gt.fanouts + e1 + e2) == multiset(gt.fanouts) + multiset(e1) + multiset(e2);
  }

  /** How wiring an AND gate changes one edge count on each side. */
  lemma AndCounts(gm: GateMap, c: nat, r1: Ref, r2: Ref, p: nat, d: nat, b: bool)
    requires Live(gm, c) && gm[c].value.kind.Aig? && Live(gm, r1.id) && Live(gm, r2.id)
    requires !gm[r1.id].value.kind.Po? && !gm[r2.id].value.kind.Po?
    ensures Outs(AndWires(gm, c, r1, r2), p)[Ref(d, b)] ==
            Outs(gm, p)[Ref(d, b)] + (if d == c && Ref(p, b) == r1 then 1 else 0) + (if d == c && Ref(p, b) == r2 then 1 else 0)
    ensures Ins(AndWires(gm, c, r1, r2), d)[Ref(p, b)] ==
            if d == c then multiset([r1, r2])[Ref(p, b)] else Ins(gm, d)[Ref(p, b)]
  {
    if Live(gm, p) {
      AndWiresSlot(gm, c, r1, r2, p);
      AndWiredOuts(gm[p].value, p, c, r1, r2, d, b);
    } else if p < |gm| {
      AndWiresSlot(gm, c, r1, r2, p);
    }
    if d < |gm| {
      AndWiresSlot(gm, c, r1, r2, d);
    }
  }

  /** One edge count of the mirror after an AND gate joins the wired gates. */
  lemma AndMirrorAt(gm: GateMap, w: set<nat>, c: nat, r1: Ref, r2: Ref, p: nat, d: nat, b: bool)
    requires Live(gm, c) && gm[c].value.kind.Aig? && Live(gm, r1.id) && Live(gm, r2.id)
    requires !gm[r1.id].value.kind.Po? && !gm[r2.id].value.kind.Po?
    requires WiredMirror(gm, w) && c !in w
    ensures var g := AndWires(gm, c, r1, r2);
      Outs(g, p)[Ref(d, b)] == if d in w + {c} then Ins(g, d)[Ref(p, b)] else 0
  {
    AndCounts(gm, c, r1, r2, p, d, b);
    PairCount(r1, r2, Ref(p, b));
    MirrorAt(gm, w, p, d, b);
  }

  /** The wired AND gate joins the gates whose fanins its fanins' fanout lists mirror. */
  lemma AndMirror(gm: GateMap, w: set<nat>, c: nat, r1: Ref, r2: Ref)
    requires Live(gm, c) && gm[c].value.kind.Aig? && Live(gm, r1.id) && Live(gm, r2.id)
    requires !gm[r1.id].value.kind.Po? && !gm[r2.id].value.kind.Po?
    requires WiredMirror(gm, w) && c !in w
    ensures WiredMirror(AndWires(gm, c, r1, r2), w + {c})
  {
    var g := AndWires(gm, c, r1, r2);
    forall p: nat, d: nat, b: bool
      ensures Outs(g, p)[Ref(d, b)] == if d in w + {c} then Ins(g, d)[Ref(p, b)] else 0
    {
      AndMirrorAt(gm, w, c, r1, r2, p, d, b);
    }
  }

  /** Wiring the ko-th output's gate sets its fanin to the output's literal and keeps every other gate's shape. */
  lemma PoShape(f: Aag, gm: GateMap, ka: nat, ko: nat, c: nat, r: Ref)
    requires Lits(f) && ka <= f.a && ko < f.o && Shape(f, gm, ka, ko)
    requires c == PoId(f, ko) && r == RefOf(f.outputs[ko]) && Live(gm, r.id)
    ensures Live(gm, c) && gm[c].value.kind.Po? && !gm[r.id].value.kind.Po?
    ensures Shape(f, PoWires(gm, c, r), ka, ko + 1)
  {
    assert gm[c] == Some(PoGateOf(f, ko, |f.symbols|, Unset));
    var g := PoWires(gm, c, r);
    PoWiresSlot(gm, c, r, 0);
    forall k | 0 <= k < f.i
      ensures Live(g, f.inputs[k] / 2) && Bare(g[f.inputs[k] / 2].value) == PiGateOf(f, k, |f.symbols|)
    {
      PoWiresSlot(gm, c, r, f.inputs[k] / 2);
    }
    forall k | 0 <= k < f.o
      ensures g[PoId(f, k)] == Some(PoGateOf(f, k, |f.symbols|, if k < ko + 1 then RefOf(f.outputs[k]) else Unset))
    {
      PoWiresSlot(gm, c, r, PoId(f, k));
    }
    forall k | 0 <= k < f.a
      ensures Live(g, f.ands[k].lhs / 2) && Bare(g[f.ands[k].lhs / 2].value) == AndGateOf(f, k, ka)
    {
      PoWiresSlot(gm, c, r, f.ands[k].lhs / 2);
    }
    forall i | i in DefIds(f)
      ensures Live(g, i)
    {
      PoWiresSlot(gm, c, r, i);
    }
    forall i | 0 <= i < |g| && g[i].Some? && g[i].value.kind.Po?
      ensures i > f.m
    {
      PoWiresSlot(gm, c, r, i);
    }
  }

  /** Wiring an output gate leaves the UNDEF gates as they were, up to their fanout lists. */
  lemma PoUndefs(f: Aag, gm: GateMap, u: seq<nat>, rd: set<nat>, c: nat, r: Ref)
    requires Sized(f) && c in DefIds(f) && Undefs(f, gm, u, rd)
    requires Live(gm, c) && gm[c].value.kind.Po? && Live(gm, r.id) && !gm[r.id].value.kind.Po?
    ensures Undefs(f, PoWires(gm, c, r), u, rd)
  {
    var g := PoWires(gm, c, r);
    forall i | 0 <= i < |g| && i !in DefIds(f)
      ensures (g[i].Some? <==> i in u) && (g[i].Some? ==> Bare(g[i].value) == UndefGateOf(i))
    {
      PoWiresSlot(gm, c, r, i);
    }
  }

  /** The fanout entry an output wiring appends to the gate it reads. */
  lemma PoWiredOuts(gt: Gate, i: nat, c: nat, r: Ref, d: nat, b: bool)
    ensures multiset(PoWiredGate(gt, i, c, r).fanouts)[Ref(d, b)] ==
            multiset(gt.fanouts)[Ref(d, b)] + if d == c && Ref(i, b) == r then 1 else 0
  {
    var e: seq<Ref> := if i == r.id then [Ref(c, r.inv)] else [];
    assert PoWiredGate(gt, i, c, r).fanouts == gt.fanouts + e;
    assert multiset(gt.fanouts + e) == multiset(gt.fanouts) + multiset(e);
  }

  /** How wiring an output gate changes one edge count on each side. */
  lemma PoCounts(gm: GateMap, c: nat, r: Ref, p: nat, d: nat, b: bool)
    requires Live(gm, c) && gm[c].value.kind.Po? && Live(gm, r.id) && !gm[r.id].value.kind.Po?
    ensures Outs(PoWires(gm, c, r), p)[Ref(d, b)] == Outs(gm, p)[Ref(d, b)] + if d == c && Ref(p, b) == r then 1 else 0
    ensures Ins(PoWires(gm, c, r), d)[Ref(p, b)] == if d == c then (if Ref(p, b) == r then 1 else 0) else Ins(gm, d)[Ref(p, b)]
  {
    if Live(gm, p) {
      PoWiresSlot(gm, c, r, p);
      PoWiredOuts(gm[p].value, p, c, r, d, b);
    } else if p < |gm| {
      PoWiresSlot(gm, c, r, p);
    }
    if d < |gm| {
      PoWiresSlot(gm, c, r, d);
    }
  }

  /** One edge count of the mirror after an output gate joins the wired gates. */
  lemma PoMirrorAt(gm: GateMap, w: set<nat>, c: nat, r: Ref, p: nat, d: nat, b: bool)
    requires Live(gm, c) && gm[c].value.kind.Po? && Live(gm, r.id) && !gm[r.id].value.kind.Po?
    requires WiredMirror(gm, w) && c !in w
    ensures var g := PoWires(gm, c, r);
      Outs(g, p)[Ref(d, b)] == if d in w + {c} then Ins(g, d)[Ref(p, b)] else 0
  {
    PoCounts(gm, c, r, p, d, b);
    MirrorAt(gm, w, p, d, b);
  }

  /** The wired output gate joins the gates whose fanin its fanin's fanout list mirrors. */
  lemma PoMirror(gm: GateMap, w: set<nat>, c: nat, r: Ref)
    requires Live(gm, c) && gm[c].value.kind.Po? && Live(gm, r.id) && !gm[r.id].value.kind.Po?
    requires WiredMirror(gm, w) && c !in w
    ensures WiredMirror(PoWires(gm, c, r), w + {c})
  {
    var g := PoWires(gm, c, r);
    forall p: nat, d: nat, b: bool
      ensures Outs(g, p)[Ref(d, b)] == if d in w + {c} then Ins(g, d)[Ref(p, b)] else 0
    {
      PoMirrorAt(gm, w, c, r, p, d, b);
    }
  }

  /** One iteration of the AND fanin loop keeps the wiring invariant, with one more AND line wired. */
  lemma WireAndStep(f: Aag, gm: GateMap, u: seq<nat>, ka: nat, ko: nat)
    requires Lits(f) && Distinct(f) && ka < f.a && ko <= f.o && Wiring(f, gm, u, ka, ko)
    ensures var d := f.ands[ka];
      && Live(gm, d.lhs / 2) && d.rhs0 / 2 < |gm| && d.rhs1 / 2 < |gm|
      && var res := AndWired(gm, u, d.lhs / 2, RefOf(d.rhs0), RefOf(d.rhs1));
         Wiring(f, res.0, res.1, ka + 1, ko)
  {
    AndReadWired(f, ka, ko);
    var d := f.ands[ka];
    var c, r1, r2 := d.lhs / 2, RefOf(d.rhs0), RefOf(d.rhs1);
    assert Live(gm, c);
    var rd, w := ReadTo(f, ka, ko), WiredTo(f, ka, ko);
    var (g1, u1) := Ensure(gm, u, r1.id);
    EnsureShape(f, gm, u, ka, ko, r1.id, g1, u1);
    EnsureUndefs(f, gm, u, rd, r1.id, g1, u1);
    EnsureMirror(gm, u, w, r1.id, g1, u1);
    var (g2, u2) := Ensure(g1, u1, r2.id);
    EnsureShape(f, g1, u1, ka, ko, r2.id, g2, u2);
    EnsureUndefs(f, g1, u1, rd + {r1.id}, r2.id, g2, u2);
    EnsureMirror(g1, u1, w, r2.id, g2, u2);
    assert Lhs(f.ands)[ka] / 2 == c;
    AndShape(f, g2, ka, ko, c, r1, r2);
    AndUndefs(f, g2, u2, rd + {r1.id} + {r2.id}, c, r1, r2);
    AndMirror(g2, w, c, r1, r2);
  }

  /** One iteration of the output fanin loop keeps the wiring invariant, with one more output wired. */
  lemma WireOutputStep(f: Aag, gm: GateMap, u: seq<nat>, ka: nat, ko: nat)
    requires Lits(f) && ka <= f.a && ko < f.o && Wiring(f, gm, u, ka, ko)
    ensures && Live(gm, PoId(f, ko)) && f.outputs[ko] / 2 < |gm|
      && var res := PoWired(gm, u, PoId(f, ko), RefOf(f.outputs[ko]));
         Wiring(f, res.0, res.1, ka, ko + 1)
  {
    PoReadWired(f, ka, ko);
    var c, r := PoId(f, ko), RefOf(f.outputs[ko]);
    assert Live(gm, c);
    var rd, w := ReadTo(f, ka, ko), WiredTo(f, ka, ko);
    var (g1, u1) := Ensure(gm, u, r.id);
    EnsureShape(f, gm, u, ka, ko, r.id, g1, u1);
    EnsureUndefs(f, gm, u, rd, r.id, g1, u1);
    EnsureMirror(gm, u, w, r.id, g1, u1);
    assert c in PoRange(f, f.o);
    PoShape(f, g1, ka, ko, c, r);
    PoUndefs(f, g1, u1, rd + {r.id}, c, r);
    PoMirror(g1, w, c, r);
  }

  /** The invariant of the AND fanin loop after k lines. */
  ghost predicate AndLoop(f: Aag, gm: GateMap, u: seq<nat>, aigs: seq<nat>, k: nat)
  {
    var holds := Lits(f) && Distinct(f) && k <= f.a && Wiring(f, gm, u, k, 0) && aigs == Ids(Lhs(f.ands));
    holds
  }

  /** One iteration of the AND fanin loop, as the invariant sees it. */
  method WireAndLine(m: CirMgr, f: Aag, k: nat)
    requires AndLoop(f, m.gateMap, m.UNDEFs, m.AIGs, k) && k < f.a
    modifies m`gateMap, m`UNDEFs
    ensures AndLoop(f, m.gateMap, m.UNDEFs, m.AIGs, k + 1)
  {
    WireAndStep(f, m.gateMap, m.UNDEFs, k, 0);
    WireAnd(m, m.AIGs[k], RefOf(f.ands[k].rhs0), RefOf(f.ands[k].rhs1));
  }

  /** The AND fanin loop of `readCircuit`: `AIGs[i]` wired to the two literals of the i-th AND line. */
  method WireAnds(m: CirMgr, f: Aag)
    requires AndLoop(f, m.gateMap, m.UNDEFs, m.AIGs, 0)
    modifies m`gateMap, m`UNDEFs
    ensures AndLoop(f, m.gateMap, m.UNDEFs, m.AIGs, f.a)
  {
    var k := 0;
    while k < f.a
      invariant k <= f.a && AndLoop(f, m.gateMap, m.UNDEFs, m.AIGs, k)
    {
      WireAndLine(m, f, k);
      k := k + 1;
    }
  }

  /** One iteration of the output fanin loop, as the invariant sees it. */
  method WireOutputLine(m: CirMgr, f: Aag, k: nat)
    requires Lits(f) && k < f.o && Wiring(f, m.gateMap, m.UNDEFs, f.a, k) && m.POs == PoIds(f)
    modifies m`gateMap, m`UNDEFs
    ensures Wiring(f, m.gateMap, m.UNDEFs, f.a, k + 1)
  {
    WireOutputStep(f, m.gateMap, m.UNDEFs, f.a, k);
    WireOutput(m, m.POs[k], RefOf(f.outputs[k]));
  }

  /**
   * The output fanin loop of `readCircuit`: `POs[i]` wired to the i-th output literal, which
   * completes the table `Wired` describes.
   */
  method WireOutputs(m: CirMgr, f: Aag)
    requires AndLoop(f, m.gateMap, m.UNDEFs, m.AIGs, f.a) && m.POs == PoIds(f) && m.PIs == Ids(f.inputs)
    modifies m`gateMap, m`UNDEFs
    ensures Wired(f, m.gateMap, m.PIs, m.POs, m.AIGs, m.UNDEFs)
  {
    var k := 0;
    while k < f.o
      invariant Lits(f) && k <= f.o && Wiring(f, m.gateMap, m.UNDEFs, f.a, k)
    {
      WireOutputLine(m, f, k);
      k := k + 1;
    }
    WiringDone(f, m.gateMap, m.PIs, m.POs, m.AIGs, m.UNDEFs);
  }

  // ---------------------------------------------------------------------------------------------
  // The finished table

  /**
   * A gate of the wired table sits at its own id and is in the list of its kind; it reads ids up to
   * M, and reads something only if its line was wired.
   */
  lemma WiredSlot(f: Aag, gm: GateMap, u: seq<nat>, i: nat)
    requires Lits(f) && Shape(f, gm, f.a, f.o) && Undefs(f, gm, u, ReadTo(f, f.a, f.o)) && Live(gm, i)
    ensures gm[i].value.id == i
    ensures match gm[i].value.kind
      case Const => i == 0
      case Pi => i in Ids(f.inputs)
      case Po(_) => i in PoIds(f)
      case Aig(_, _) => i in Ids(Lhs(f.ands))
      case Undef => i in u
    ensures Fanins(gm[i].value.kind) != [] ==> i in WiredTo(f, f.a, f.o)
    ensures forall r :: r in Fanins(gm[i].value.kind) ==> r.id <= f.m
  {
    if i in DefIds(f) {
      if i in IdsTo(f.inputs, f.i) {
        var k := IdsToWitness(f.inputs, f.i, i);
        assert Bare(gm[i].value) == PiGateOf(f, k, |f.symbols|);
        assert Ids(f.inputs)[k] == i;
      } else if i in IdsTo(Lhs(f.ands), f.a) {
        var k := IdsToWitness(Lhs(f.ands), f.a, i);
        assert Bare(gm[i].value) == AndGateOf(f, k, f.a);
        assert Ids(Lhs(f.ands))[k] == i;
      } else if i in PoRange(f, f.o) {
        var k := i - f.m - 1;
        assert gm[PoId(f, k)] == Some(PoGateOf(f, k, |f.symbols|, RefOf(f.outputs[k])));
        assert PoIds(f)[k] == i;
      } else {
        assert Bare(gm[0].value) == ConstGateOf();
      }
    } else {
      assert Bare(gm[i].value) == UndefGateOf(i);
    }
  }

  /** The wired table is a valid gate table: gates at their ids, fanouts mirroring fanins, no PO read. */
  lemma WiredTable(f: Aag, gm: GateMap, u: seq<nat>)
    requires Lits(f) && Wiring(f, gm, u, f.a, f.o)
    ensures TableOk(gm)
  {
    assert Shape(f, gm, f.a, f.o) && Undefs(f, gm, u, ReadTo(f, f.a, f.o)) && WiredMirror(gm, WiredTo(f, f.a, f.o));
    forall i | 0 <= i < |gm| && gm[i].Some?
      ensures gm[i].value.id == i
    {
      WiredSlot(f, gm, u, i);
    }
    forall p: nat, c: nat, b: bool
      ensures Outs(gm, p)[Ref(c, b)] == Ins(gm, c)[Ref(p, b)]
    {
      MirrorAt(gm, WiredTo(f, f.a, f.o), p, c, b);
      if Live(gm, c) {
        WiredSlot(f, gm, u, c);
      }
    }
    forall c: nat, r | Live(gm, c) && r in Fanins(gm[c].value.kind)
      ensures !(Live(gm, r.id) && gm[r.id].value.kind.Po?)
    {
      WiredSlot(f, gm, u, c);
    }
  }

  /** The gate lists the loops built are consistent with the wired table. */
  lemma WiredLists(f: Aag, gm: GateMap, u: seq<nat>)
    requires Lits(f) && Shape(f, gm, f.a, f.o) && Undefs(f, gm, u, ReadTo(f, f.a, f.o))
    ensures ListsOk(gm, Ids(f.inputs), PoIds(f), Ids(Lhs(f.ands)), u)
  {
    forall i: nat | Live(gm, i)
      ensures match gm[i].value.kind
        case Const => i == 0
        case Pi => i in Ids(f.inputs)
        case Po(_) => i in PoIds(f)
        case Aig(_, _) => i in Ids(Lhs(f.ands))
        case Undef => i in u
    {
      WiredSlot(f, gm, u, i);
    }
    forall k | 0 <= k < |u| && Live(gm, u[k])
      ensures gm[u[k]].value.kind.Undef?
    {
      assert Bare(gm[u[k]].value) == UndefGateOf(u[k]);
    }
  }

  /** Permuting fanout lists keeps the shape of the table and its UNDEF gates. */
  lemma ReorderedShape(f: Aag, gm: GateMap, gm': GateMap, u: seq<nat>, rd: set<nat>)
    requires Sized(f) && Shape(f, gm, f.a, f.o) && Undefs(f, gm, u, rd) && Reordered(gm, gm')
    ensures Shape(f, gm', f.a, f.o) && Undefs(f, gm', u, rd)
  {
    forall i | 0 <= i < |gm| && gm[i].Some?
      ensures Bare(gm'[i].value) == Bare(gm[i].value)
      ensures gm[i].value.fanouts == [] ==> gm'[i] == gm[i]
    {
      if gm[i].value.fanouts == [] {
        assert |gm'[i].value.fanouts| == |multiset(gm'[i].value.fanouts)|;
      }
    }
    forall k | 0 <= k < f.o
      ensures gm'[PoId(f, k)] == gm[PoId(f, k)]
    {
      assert gm[PoId(f, k)].value.fanouts == [];
    }
  }

  /** Sorting fanout lists leaves the manager in the state `Built` describes. */
  lemma ReorderedBuilt(f: Aag, gm: GateMap, gm': GateMap, pis: seq<nat>, pos: seq<nat>, aigs: seq<nat>, u: seq<nat>)
    requires Built(f, gm, pis, pos, aigs, u) && Reordered(gm, gm')
    ensures Built(f, gm', pis, pos, aigs, u)
  {
    ReorderedShape(f, gm, gm', u, ReadTo(f, f.a, f.o));
  }

  /**
   * The manager as `readCircuit` leaves it for the record f: every line's gate in the slot of its id
   * with its line number, name and fanins, an UNDEF gate for each id read but not defined and no
   * other gate, and the PI, PO and AIG lists in file order.
   */
  ghost predicate Built(f: Aag, gm: GateMap, pis: seq<nat>, pos: seq<nat>, aigs: seq<nat>, undefs: seq<nat>)
  {
    var holds := && Sized(f) && Shape(f, gm, f.a, f.o) && Undefs(f, gm, undefs, ReadTo(f, f.a, f.o))
                 && pis == Ids(f.inputs) && pos == PoIds(f) && aigs == Ids(Lhs(f.ands));
    holds
  }

  /** The table `readCircuit` starts from: the constant in slot 0 and every other slot empty. */
  lemma EmptyDeclared(f: Aag)
    requires Sized(f)
    ensures DeclaredUpTo(f, [Some(ConstGateOf())] + seq(f.m + f.o, _ => None), 0, 0, 0, 0)
  {
  }

  /** A parsed file whose gates are all declared and named, with the gate lists in file order and no UNDEF yet. */
  ghost predicate Declared(f: Aag, gm: GateMap, pis: seq<nat>, pos: seq<nat>, aigs: seq<nat>, undefs: seq<nat>)
  {
    var holds :=
      && WellFormed(f) && DeclaredUpTo(f, gm, f.i, f.o, f.a, |f.symbols|)
      && pis == Ids(f.inputs) && pos == PoIds(f) && aigs == Ids(Lhs(f.ands)) && undefs == [];
    holds
  }

  /** The declaration and symbol loops of `readCircuit`, from a table holding only the constant. */
  method Declare(m: CirMgr, f: Aag)
    requires WellFormed(f)
    modifies m`gateMap, m`PIs, m`POs, m`AIGs, m`UNDEFs
    ensures Declared(f, m.gateMap, m.PIs, m.POs, m.AIGs, m.UNDEFs)
  {
    m.gateMap := [Some(ConstGateOf())] + seq(f.m + f.o, _ => None);
    m.PIs, m.POs, m.AIGs, m.UNDEFs := [], [], [], [];
    EmptyDeclared(f);
    DeclareInputs(m, f);
    DeclareOutputs(m, f);
    WellFormedParts(f);
    DeclareAnds(m, f);
    NamePins(m, f);
  }

  /** A wired table: `Built`, with a valid gate table and gate lists that agree with it. */
  ghost predicate Wired(f: Aag, gm: GateMap, pis: seq<nat>, pos: seq<nat>, aigs: seq<nat>, undefs: seq<nat>)
  {
    var holds := Built(f, gm, pis, pos, aigs, undefs) && TableOk(gm) && ListsOk(gm, pis, pos, aigs, undefs);
    holds
  }

  /** What `readCircuit` leaves behind: a valid manager in the `Built` state, sorted fanouts and the DFS list. */
  ghost predicate Loaded(m: CirMgr, f: Aag)
    reads m
  {
    var holds :=
      && m.Valid() && Built(f, m.gateMap, m.PIs, m.POs, m.AIGs, m.UNDEFs)
      && DfsOk(m.gateMap, m.dfsList, m.POs)
      && forall i: nat :: Live(m.gateMap, i) && !m.gateMap[i].value.kind.Po? ==> SortedBy(m.gateMap[i].value.fanouts, RefId);
    holds
  }

  /** Once every AND and PO line is wired, the table and the lists are those `Wired` describes. */
  lemma WiringDone(f: Aag, gm: GateMap, pis: seq<nat>, pos: seq<nat>, aigs: seq<nat>, u: seq<nat>)
    requires Lits(f) && Wiring(f, gm, u, f.a, f.o)
    requires pis == Ids(f.inputs) && pos == PoIds(f) && aigs == Ids(Lhs(f.ands))
    ensures Wired(f, gm, pis, pos, aigs, u)
  {
    assert Shape(f, gm, f.a, f.o) && Undefs(f, gm, u, ReadTo(f, f.a, f.o));
    WiredTable(f, gm, u);
    WiredLists(f, gm, u);
  }

  /** A declared table is where the AND fanin loop starts. */
  lemma DeclaredReady(f: Aag, gm: GateMap, pis: seq<nat>, pos: seq<nat>, aigs: seq<nat>, u: seq<nat>)
    requires Declared(f, gm, pis, pos, aigs, u)
    ensures AndLoop(f, gm, u, aigs, 0) && pos == PoIds(f) && pis == Ids(f.inputs)
  {
    WellFormedParts(f);
    WiringStart(f, gm);
  }

  /** The two fanin loops of `readCircuit`. */
  method Wire(m: CirMgr, f: Aag)
    requires Declared(f, m.gateMap, m.PIs, m.POs, m.AIGs, m.UNDEFs)
    modifies m`gateMap, m`UNDEFs
    ensures Wired(f, m.gateMap, m.PIs, m.POs, m.AIGs, m.UNDEFs)
  {
    DeclaredReady(f, m.gateMap, m.PIs, m.POs, m.AIGs, m.UNDEFs);
    WireAnds(m, f);
    WireOutputs(m, f);
  }

  /** A wired table with every gate unvisited and a simulation value per gate is a valid manager. */
  lemma WiredValid(m: CirMgr, f: Aag)
    requires Wired(f, m.gateMap, m.PIs, m.POs, m.AIGs, m.UNDEFs)
    requires m.globalRef >= 1 && m.marks == seq(|m.gateMap|, _ => 0) && |m.values| == |m.gateMap|
    ensures m.Valid()
  {
  }

  /** A valid manager in the `Built` state whose non-PO fanout lists are sorted by id. */
  ghost predicate Sorted(m: CirMgr, f: Aag)
    reads m
  {
    var holds :=
      && m.Valid() && Built(f, m.gateMap, m.PIs, m.POs, m.AIGs, m.UNDEFs)
      && forall i: nat :: Live(m.gateMap, i) && !m.gateMap[i].value.kind.Po? ==> SortedBy(m.gateMap[i].value.fanouts, RefId);
    holds
  }

  /**
   * The tail of `readCircuit` before the DFS: every gate unvisited with a zero simulation value,
   * and fanouts sorted by id.
   */
  method SortFanouts(m: CirMgr, ghost f: Aag)
    requires m.globalRef >= 1 && Wired(f, m.gateMap, m.PIs, m.POs, m.AIGs, m.UNDEFs)
    modifies m`gateMap, m`marks, m`values
    ensures Reordered(old(m.gateMap), m.gateMap) && Sorted(m, f)
  {
    m.marks := seq(|m.gateMap|, _ => 0);
    m.values := seq(|m.gateMap|, _ => Zero());
    WiredValid(m, f);
    ghost var gm := m.gateMap;
    m.SortAllFanouts();
    ReorderedBuilt(f, gm, m.gateMap, m.PIs, m.POs, m.AIGs, m.UNDEFs);
  }

  /** The last step of `readCircuit`: the DFS list built from the outputs. */
  method Finish(m: CirMgr, ghost f: Aag)
    requires Sorted(m, f)
    modifies m`marks, m`globalRef, m`dfsList
    ensures Loaded(m, f)
  {
    m.Dfs();
  }

  /** `readCircuit` once the gates are declared and named: wire them, then sort and DFS. */
  method Build(m: CirMgr, f: Aag)
    requires Declared(f, m.gateMap, m.PIs, m.POs, m.AIGs, m.UNDEFs) && m.globalRef >= 1
    modifies m`gateMap, m`UNDEFs, m`marks, m`values, m`globalRef, m`dfsList
    ensures Loaded(m, f)
  {
    Wire(m, f);
    SortFanouts(m, f);
    Finish(m, f);
  }

  /**
   * `readCircuit` on the lines of a file: nothing is built when the lines are rejected; otherwise
   * the declared, named and wired gates make a valid manager in the state `Built` describes, with
   * sorted fanout lists and the depth-first list of the POs.
   */
  method ReadCircuit(m: CirMgr, lines: seq<seq<byte>>) returns (r: Result<Aag, ParseError>)
    requires m.globalRef >= 1
    modifies m
    ensures r == Parse(lines)
    ensures r.Failure? ==> unchanged(m)
    ensures r.Success? ==> Loaded(m, r.value)
  {
    r := Parse(lines);
    if r.Failure? {
      return;
    }
    Declare(m, r.value);
    Build(m, r.value);
  }
}
