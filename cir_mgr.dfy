/**
 * CirMgr: the circuit manager. It owns the gate table, the PI/PO/AIG/UNDEF lists, the depth-first
 * list and the FEC groups. The per-gate visit mark `_ref` and simulation value are kept here in tables
 * indexed by gate id, beside the epoch counter `_global_ref` they are compared with.
 */
module CirManager {
  import opened Wrappers
  import opened CirGate
  import opened CirGraph
  import opened CirAag
  import opened Sorting

  /** A gate a depth-first traversal lists: present, and not an UNDEF placeholder. */
  predicate Traversed(gm: GateMap, i: nat)
  {
    Live(gm, i) && !gm[i].value.kind.Undef?
  }

  /** No gate reads a PO. */
  ghost predicate NoPoRead(gm: GateMap)
  {
    forall c: nat, r :: Live(gm, c) && r in Fanins(gm[c].value.kind) ==> !(Live(gm, r.id) && gm[r.id].value.kind.Po?)
  }

  /** Every fanin of a gate is present in the table. */
  ghost predicate FaninsLive(gm: GateMap)
  {
    forall c: nat, r :: Live(gm, c) && r in Fanins(gm[c].value.kind) ==> Live(gm, r.id)
  }

  /** Fanouts mirroring fanins leave no fanin dangling. */
  lemma MirrorFaninsLive(gm: GateMap)
    requires Mirror(gm)
    ensures FaninsLive(gm)
  {
    forall c: nat, r | Live(gm, c) && r in Fanins(gm[c].value.kind)
      ensures Live(gm, r.id)
    {
      FaninListed(gm, c, r);
    }
  }

  /** A set of ids that holds the listed fanins of each of its gates. */
  ghost predicate FaninClosed(gm: GateMap, t: set<nat>)
  {
    forall c, r :: c in t && Live(gm, c) && r in Fanins(gm[c].value.kind) && Traversed(gm, r.id) ==> r.id in t
  }

  /** A rank that drops along every fanin edge: the graph has no cycle. */
  ghost predicate Ranked(gm: GateMap, rank: nat -> nat)
  {
    forall c: nat, r :: Live(gm, c) && r in Fanins(gm[c].value.kind) ==> rank(r.id) < rank(c)
  }

  ghost predicate Acyclic(gm: GateMap)
  {
    exists rank: nat -> nat :: Ranked(gm, rank)
  }

  /** Each listed gate comes after every listed gate it reads. */
  ghost predicate FaninsFirst(gm: GateMap, list: seq<nat>)
  {
    forall k, r :: 0 <= k < |list| && Live(gm, list[k]) && r in Fanins(gm[list[k]].value.kind) && Traversed(gm, r.id) ==>
      r.id in list[..k]
  }

  ghost predicate NoDup(list: seq<nat>)
  {
    forall k, l :: 0 <= k < l < |list| ==> list[k] != list[l]
  }

  /**
   * What `DFS` leaves in `_dfsList`: each gate once, no UNDEF, every PO, every listed fanin of a
   * listed gate, nothing outside the fanin cones of the POs, and fanins first when the graph has no
   * cycle.
   */
  ghost predicate DfsOk(gm: GateMap, list: seq<nat>, roots: seq<nat>)
  {
    && (forall k :: 0 <= k < |list| ==> Traversed(gm, list[k]))
    && NoDup(list)
    && (forall k :: 0 <= k < |roots| ==> roots[k] in list)
    && FaninClosed(gm, set k | 0 <= k < |list| :: list[k])
    && (forall t :: FaninClosed(gm, t) && (forall k :: 0 <= k < |roots| ==> roots[k] in t) ==>
          forall k :: 0 <= k < |list| ==> list[k] in t)
    && (Acyclic(gm) ==> FaninsFirst(gm, list))
  }

  /**
   * The state of a depth-first traversal between calls, in epoch ep: every listed gate is visited and
   * listed once; every visited gate is listed or still open on the call stack; the listed fanins of a
   * listed gate are listed or open; and, without cycles, listed before it.
   */
  ghost predicate DfsState(gm: GateMap, marks: seq<nat>, ep: nat, list: seq<nat>, stack: set<nat>, rank: nat -> nat)
  {
    && |marks| == |gm|
    && (forall k :: 0 <= k < |list| ==> Traversed(gm, list[k]) && marks[list[k]] == ep)
    && NoDup(list)
    && (forall s :: s in stack ==> Traversed(gm, s) && marks[s] == ep)
    && (forall i :: 0 <= i < |marks| && marks[i] == ep ==> i in list || i in stack)
    && (forall k, r :: 0 <= k < |list| && r in Fanins(gm[list[k]].value.kind) && Traversed(gm, r.id) ==>
          r.id in list || r.id in stack)
    && (Ranked(gm, rank) ==> FaninsFirst(gm, list))
  }

  /** A list that extends one holding the first i roots, and holds root i, holds the first i + 1 roots. */
  lemma RootsListed(l0: seq<nat>, l1: seq<nat>, roots: seq<nat>, i: nat)
    requires i < |roots| && |l0| <= |l1| && l1[..|l0|] == l0
    requires (forall j :: 0 <= j < i ==> roots[j] in l0) && roots[i] in l1
    ensures forall j :: 0 <= j < i + 1 ==> roots[j] in l1
  {
    assert forall x :: x in l0 ==> x in l1;
  }

  /** Everything listed lies in every fanin-closed set that holds all the roots. */
  ghost predicate WithinAll(gm: GateMap, list: seq<nat>, roots: seq<nat>)
  {
    forall t :: FaninClosed(gm, t) && (forall j :: 0 <= j < |roots| ==> roots[j] in t) ==>
      forall k :: 0 <= k < |list| ==> list[k] in t
  }

  /** Traversing from one of the roots keeps the list within the roots' fanin cone. */
  lemma WithinAllStep(gm: GateMap, l0: seq<nat>, l1: seq<nat>, roots: seq<nat>, i: nat)
    requires i < |roots| && |l0| <= |l1| && l1[..|l0|] == l0
    requires WithinAll(gm, l0, roots) && Within(gm, l0, l1, roots[i])
    ensures WithinAll(gm, l1, roots)
  {
    forall t | FaninClosed(gm, t) && (forall j :: 0 <= j < |roots| ==> roots[j] in t)
      ensures forall k :: 0 <= k < |l1| ==> l1[k] in t
    {
      assert roots[i] in t;
      forall k | 0 <= k < |l1|
        ensures l1[k] in t
      {
        if k < |l0| {
          assert l1[k] == l0[k];
        }
      }
    }
  }

  /** A fresh epoch with nothing listed is a traversal state. */
  lemma DfsStart(gm: GateMap, marks: seq<nat>, ep: nat, rank: nat -> nat)
    requires |marks| == |gm| && forall i :: 0 <= i < |marks| ==> marks[i] != ep
    ensures DfsState(gm, marks, ep, [], {}, rank)
  {
  }

  /** A traversal state with nothing open, listing every root within their cone, is a finished DFS. */
  lemma DfsDone(gm: GateMap, marks: seq<nat>, ep: nat, list: seq<nat>, rank: nat -> nat, roots: seq<nat>)
    requires DfsState(gm, marks, ep, list, {}, rank) && WithinAll(gm, list, roots)
    requires forall j :: 0 <= j < |roots| ==> roots[j] in list
    requires Acyclic(gm) ==> Ranked(gm, rank)
    ensures DfsOk(gm, list, roots)
  {
    var s := set k | 0 <= k < |list| :: list[k];
    forall c, r | c in s && Live(gm, c) && r in Fanins(gm[c].value.kind) && Traversed(gm, r.id)
      ensures r.id in s
    {
      var k :| 0 <= k < |list| && list[k] == c;
      assert r.id in list;
    }
  }

  /** Visiting an unvisited gate opens it, and leaves fewer gates unvisited. */
  lemma VisitOpens(gm: GateMap, marks: seq<nat>, ep: nat, list: seq<nat>, stack: set<nat>, rank: nat -> nat, id: nat)
    requires DfsState(gm, marks, ep, list, stack, rank)
    requires Traversed(gm, id) && marks[id] != ep
    requires Ranked(gm, rank) ==> forall s :: s in stack ==> rank(id) < rank(s)
    ensures id !in stack && id !in list
    ensures DfsState(gm, marks[id := ep], ep, list, stack + {id}, rank)
    ensures Ranked(gm, rank) ==> forall s :: s in stack + {id} ==> rank(id) <= rank(s)
    ensures Unvisited(marks[id := ep], ep) < Unvisited(marks, ep)
  {
    assert id in Unvisited(marks, ep) - Unvisited(marks[id := ep], ep);
  }

  /** Appending an open gate whose listed fanins are all listed closes it. */
  lemma PushCloses(gm: GateMap, marks: seq<nat>, ep: nat, list: seq<nat>, stack: set<nat>, rank: nat -> nat, id: nat)
    requires DfsState(gm, marks, ep, list, stack + {id}, rank)
    requires Traversed(gm, id) && id !in stack && id !in list
    requires forall r :: r in Fanins(gm[id].value.kind) && Traversed(gm, r.id) ==> r.id in list || r.id in stack || r.id == id
    requires Ranked(gm, rank) ==> forall r :: r in Fanins(gm[id].value.kind) && Traversed(gm, r.id) ==> r.id in list
    ensures DfsState(gm, marks, ep, list + [id], stack, rank)
  {
    var l := list + [id];
    assert l[..|list|] == list;
    forall k, r | 0 <= k < |l| && r in Fanins(gm[l[k]].value.kind) && Traversed(gm, r.id)
      ensures r.id in l || r.id in stack
    {
      if k < |list| {
        assert r.id in list || r.id in stack + {id};
      }
    }
    if Ranked(gm, rank) {
      forall k, r | 0 <= k < |l| && Live(gm, l[k]) && r in Fanins(gm[l[k]].value.kind) && Traversed(gm, r.id)
        ensures r.id in l[..k]
      {
        if k < |list| {
          assert l[..k] == list[..k];
        } else {
          assert l[..k] == list;
        }
      }
    }
  }

  /** The ids not visited in epoch ep. */
  ghost function Unvisited(marks: seq<nat>, ep: nat): set<nat>
  {
    set i | 0 <= i < |marks| && marks[i] != ep
  }

  /**
   * From (m0, l0) to (m1, l1) a traversal in epoch ep only appended to the list, appended only gates
   * unvisited before, and visited exactly what it appended.
   */
  ghost predicate Extends(gm: GateMap, m0: seq<nat>, m1: seq<nat>, ep: nat, l0: seq<nat>, l1: seq<nat>)
  {
    && |m0| == |gm| && |m1| == |gm|
    && |l0| <= |l1| && l1[..|l0|] == l0
    && (forall k :: |l0| <= k < |l1| ==> l1[k] < |m0| && m0[l1[k]] != ep)
    && (forall i :: 0 <= i < |m1| ==> (m1[i] == ep <==> m0[i] == ep || i in l1[|l0|..]))
  }

  /** Everything appended from l0 to l1 lies in every fanin-closed set that holds root. */
  ghost predicate Within(gm: GateMap, l0: seq<nat>, l1: seq<nat>, root: nat)
    requires |l0| <= |l1|
  {
    forall t :: FaninClosed(gm, t) && root in t ==> forall k :: |l0| <= k < |l1| ==> l1[k] in t
  }

  lemma ExtendsTrans(gm: GateMap, m0: seq<nat>, m1: seq<nat>, m2: seq<nat>, ep: nat, l0: seq<nat>, l1: seq<nat>, l2: seq<nat>)
    requires Extends(gm, m0, m1, ep, l0, l1) && Extends(gm, m1, m2, ep, l1, l2)
    ensures Extends(gm, m0, m2, ep, l0, l2)
    ensures Unvisited(m2, ep) <= Unvisited(m1, ep) <= Unvisited(m0, ep)
  {
    assert l2[|l0|..] == l1[|l0|..] + l2[|l1|..];
    assert l2[..|l0|] == l1[..|l0|];
    forall k | |l0| <= k < |l2|
      ensures l2[k] < |m0| && m0[l2[k]] != ep
    {
      if k < |l1| {
        assert l2[k] == l1[k];
      } else {
        assert l2[k] in l2[|l1|..];
        assert m1[l2[k]] != ep;
      }
    }
  }

  lemma ExtendsRefl(gm: GateMap, m: seq<nat>, ep: nat, l: seq<nat>)
    requires |m| == |gm|
    ensures Extends(gm, m, m, ep, l, l)
  {
    assert l[..|l|] == l;
  }

  lemma ExtendsShrinks(gm: GateMap, m0: seq<nat>, m1: seq<nat>, ep: nat, l0: seq<nat>, l1: seq<nat>)
    requires Extends(gm, m0, m1, ep, l0, l1)
    ensures Unvisited(m1, ep) <= Unvisited(m0, ep)
  {
  }

  /** Appending the gate visited on entry, unvisited before, closes the extension from before the visit. */
  lemma ExtendsPush(gm: GateMap, m0: seq<nat>, m1: seq<nat>, ep: nat, l0: seq<nat>, l1: seq<nat>, id: nat)
    requires id < |m0| && m0[id] != ep
    requires Extends(gm, m0[id := ep], m1, ep, l0, l1)
    ensures Extends(gm, m0, m1, ep, l0, l1 + [id])
  {
    var l := l1 + [id];
    assert l[..|l1|] == l1;
    assert l[|l0|..] == l1[|l0|..] + [id];
  }

  /** A fanin traversal is done: the fanin is listed or still open, and listed if there is no cycle. */
  ghost predicate FaninDone(gm: GateMap, r: Ref, l: seq<nat>, stack: set<nat>, rank: nat -> nat)
  {
    && (Traversed(gm, r.id) ==> r.id in l || r.id in stack)
    && (Ranked(gm, rank) && Traversed(gm, r.id) ==> r.id in l)
  }

  /** A done fanin stays done as the list grows. */
  lemma FaninStaysDone(gm: GateMap, r: Ref, l: seq<nat>, l': seq<nat>, stack: set<nat>, rank: nat -> nat)
    requires FaninDone(gm, r, l, stack, rank) && |l| <= |l'| && l'[..|l|] == l
    ensures FaninDone(gm, r, l', stack, rank)
  {
    if r.id in l {
      var k :| 0 <= k < |l| && l[k] == r.id;
      assert l'[k] == r.id;
    }
  }

  /** Both fanins of an AND gate are done once the second traversal has run after the first. */
  lemma BothFaninsDone(gm: GateMap, id: nat, l: seq<nat>, l': seq<nat>, stack: set<nat>, rank: nat -> nat)
    requires Live(gm, id) && gm[id].value.kind.Aig? && |l| <= |l'| && l'[..|l|] == l
    requires FaninDone(gm, gm[id].value.kind.fanin1, l, stack, rank)
    requires FaninDone(gm, gm[id].value.kind.fanin2, l', stack, rank)
    ensures forall r :: r in Fanins(gm[id].value.kind) ==> FaninDone(gm, r, l', stack, rank)
  {
    var k := gm[id].value.kind;
    assert Fanins(k) == [k.fanin1, k.fanin2];
    FaninStaysDone(gm, k.fanin1, l, l', stack, rank);
  }

  /**
   * Closing a gate visited on entry: once each of its listed fanins is listed or open (and, without
   * cycles, listed), appending it completes the traversal step from before the visit.
   */
  lemma CloseGate(gm: GateMap, m0: seq<nat>, m: seq<nat>, ep: nat, list: seq<nat>, l: seq<nat>,
                  stack: set<nat>, rank: nat -> nat, id: nat)
    requires Traversed(gm, id) && id !in stack && id !in list && id < |m0| && m0[id] != ep
    requires DfsState(gm, m, ep, l, stack + {id}, rank)
    requires Extends(gm, m0[id := ep], m, ep, list, l) && Within(gm, list, l, id)
    requires forall r :: r in Fanins(gm[id].value.kind) ==> FaninDone(gm, r, l, stack + {id}, rank)
    ensures DfsState(gm, m, ep, l + [id], stack, rank)
    ensures Extends(gm, m0, m, ep, list, l + [id]) && Within(gm, list, l + [id], id)
  {
    assert id !in l by {
      assert forall j :: |list| <= j < |l| ==> l[j] < |m0| && m0[id := ep][l[j]] != ep;
      assert l[..|list|] == list;
    }
    PushCloses(gm, m, ep, l, stack, rank, id);
    ExtendsPush(gm, m0, m, ep, list, l, id);
    WithinPush(gm, list, l, id);
  }

  /** What a fanin's traversal appends stays within the closed sets that hold the reading gate. */
  lemma WithinFanin(gm: GateMap, l0: seq<nat>, l1: seq<nat>, id: nat, r: Ref)
    requires |l0| <= |l1| && Within(gm, l0, l1, r.id)
    requires Live(gm, id) && r in Fanins(gm[id].value.kind) && (Traversed(gm, r.id) || l1 == l0)
    ensures Within(gm, l0, l1, id)
  {
  }

  lemma WithinTrans(gm: GateMap, l0: seq<nat>, l1: seq<nat>, l2: seq<nat>, id: nat)
    requires |l0| <= |l1| <= |l2| && l2[..|l1|] == l1
    requires Within(gm, l0, l1, id) && Within(gm, l1, l2, id)
    ensures Within(gm, l0, l2, id)
  {
    forall t | FaninClosed(gm, t) && id in t
      ensures forall k :: |l0| <= k < |l2| ==> l2[k] in t
    {
      forall k | |l0| <= k < |l2|
        ensures l2[k] in t
      {
        if k < |l1| {
          assert l2[k] == l1[k];
        }
      }
    }
  }

  lemma WithinPush(gm: GateMap, l0: seq<nat>, l1: seq<nat>, id: nat)
    requires |l0| <= |l1| && Within(gm, l0, l1, id)
    ensures Within(gm, l0, l1 + [id], id)
  {
    var l := l1 + [id];
    forall t | FaninClosed(gm, t) && id in t
      ensures forall k :: |l0| <= k < |l| ==> l[k] in t
    {
      forall k | |l0| <= k < |l|
        ensures l[k] in t
      {
        if k < |l1| {
          assert l[k] == l1[k];
        }
      }
    }
  }

  /** The ids in a list. */
  ghost function Elems(list: seq<nat>): set<nat>
  {
    set k | 0 <= k < |list| :: list[k]
  }

  lemma ElemsConcat(a: seq<nat>, b: seq<nat>)
    ensures Elems(a + b) == Elems(a) + Elems(b)
  {
    var l := a + b;
    forall x | x in Elems(l)
      ensures x in Elems(a) + Elems(b)
    {
      var k :| 0 <= k < |l| && l[k] == x;
      if k < |a| {
        assert a[k] == x;
      } else {
        assert b[k - |a|] == x;
      }
    }
    forall x | x in Elems(a) + Elems(b)
      ensures x in Elems(l)
    {
      if x in Elems(a) {
        var k :| 0 <= k < |a| && a[k] == x;
        assert l[k] == x;
      } else {
        var k :| 0 <= k < |b| && b[k] == x;
        assert l[|a| + k] == x;
      }
    }
  }

  lemma NoDupConcat(a: seq<nat>, b: seq<nat>)
    requires NoDup(a) && NoDup(b) && Elems(a) !! Elems(b)
    ensures NoDup(a + b)
  {
    var l := a + b;
    forall i, j | 0 <= i < j < |l|
      ensures l[i] != l[j]
    {
      if j < |a| {
        assert l[i] == a[i] && l[j] == a[j];
      } else if i >= |a| {
        assert l[i] == b[i - |a|] && l[j] == b[j - |a|];
      } else {
        assert l[i] == a[i] && a[i] in Elems(a);
        assert l[j] == b[j - |a|] && b[j - |a|] in Elems(b);
      }
    }
  }

  /**
   * The AND gates that `countGate` and `writeGate` reach from gate id while the gates in pend are
   * unvisited, with the gates still unvisited after, in the order `writeGate` writes them: an
   * unvisited AIG after the walk from fanin1 and then, when it is another gate, from fanin2; a PO
   * passes on to its fanin without being visited; any other gate ends the walk.
   */
  ghost function Walk(gm: GateMap, pend: set<nat>, id: nat): (r: (set<nat>, seq<nat>))
    requires FaninsLive(gm) && NoPoRead(gm) && Live(gm, id)
    ensures r.0 <= pend
    decreases pend, if gm[id].value.kind.Po? then 1 else 0
  {
    match gm[id].value.kind
    case Po(f) =>
      Walk(gm, pend, f.id)
    case Aig(f1, f2) =>
      if id !in pend then (pend, [])
      else
        var (p1, l1) := Walk(gm, pend - {id}, f1.id);
        var (p2, l2) := if f1.id != f2.id then Walk(gm, p1, f2.id) else (p1, []);
        (p2, l1 + l2 + [id])
    case _ => (pend, [])
  }

  /** The walk lists each gate it visits once, all of them AIGs that were unvisited. */
  lemma {:induction false} WalkLists(gm: GateMap, pend: set<nat>, id: nat)
    requires FaninsLive(gm) && NoPoRead(gm) && Live(gm, id)
    ensures WalkListed(gm, pend, Walk(gm, pend, id))
    decreases pend, if gm[id].value.kind.Po? then 2 else 1
  {
    match gm[id].value.kind
    case Po(f) =>
      WalkLists(gm, pend, f.id);
    case Aig(_, _) =>
      if id in pend {
        WalkAigLists(gm, pend, id);
      } else {
        assert Elems([]) == {};
      }
    case _ =>
      assert Elems([]) == {};
  }

  /** What a walk from pend leaves: the gates it lists, each once, all unvisited AIGs, are now visited. */
  ghost predicate WalkListed(gm: GateMap, pend: set<nat>, r: (set<nat>, seq<nat>))
  {
    && r.0 == pend - Elems(r.1)
    && Elems(r.1) <= pend && NoDup(r.1)
    && forall k :: 0 <= k < |r.1| ==> Live(gm, r.1[k]) && gm[r.1[k]].value.kind.Aig?
  }

  /** The step of WalkLists at an unvisited AIG: its fanins' walks, then the gate itself. */
  lemma {:induction false} WalkAigLists(gm: GateMap, pend: set<nat>, id: nat)
    requires FaninsLive(gm) && NoPoRead(gm) && Live(gm, id) && gm[id].value.kind.Aig? && id in pend
    ensures WalkListed(gm, pend, Walk(gm, pend, id))
    decreases pend, 0
  {
    var f1, f2 := gm[id].value.kind.fanin1, gm[id].value.kind.fanin2;
    var (p1, l1) := Walk(gm, pend - {id}, f1.id);
    WalkLists(gm, pend - {id}, f1.id);
    var (p2, l2) := if f1.id != f2.id then Walk(gm, p1, f2.id) else (p1, []);
    if f1.id != f2.id {
      WalkLists(gm, p1, f2.id);
    } else {
      assert Elems(l2) == {};
    }
    assert Walk(gm, pend, id) == (p2, l1 + l2 + [id]);
    ElemsConcat(l1, l2);
    NoDupConcat(l1, l2);
    ElemsConcat(l1 + l2, [id]);
    assert [id][0] == id;
    assert Elems([id]) == {id};
    NoDupConcat(l1 + l2, [id]);
    var l := l1 + l2 + [id];
    forall k | 0 <= k < |l|
      ensures Live(gm, l[k]) && gm[l[k]].value.kind.Aig?
    {
      if k < |l1| {
        assert l[k] == l1[k];
      } else if k < |l1| + |l2| {
        assert l[k] == l2[k - |l1|];
      }
    }
  }

  /** The AND line `writeGate` writes for a gate: its literal and its two fanin literals. */
  function AndOf(g: Gate): (d: AndDef)
    ensures g.kind.Aig? ==> RefOf(d.lhs) == Ref(g.id, false) && RefOf(d.rhs0) == g.kind.fanin1 && RefOf(d.rhs1) == g.kind.fanin2
  {
    AndDef(2 * g.id, GetFaninLit(g, 1), GetFaninLit(g, 2))
  }

  /** The AND lines of the listed gates, in list order. */
  function AndLines(gm: GateMap, ids: seq<nat>): (r: seq<AndDef>)
    ensures |r| == |ids|
  {
    if ids == [] then []
    else AndLines(gm, ids[..|ids| - 1]) + [if Live(gm, ids[|ids| - 1]) then AndOf(gm[ids[|ids| - 1]].value) else AndDef(0, 0, 0)]
  }

  /** The line of each listed gate sits at its position. */
  lemma {:induction false} AndLinesAt(gm: GateMap, ids: seq<nat>, k: nat)
    requires k < |ids| && Live(gm, ids[k])
    ensures AndLines(gm, ids)[k] == AndOf(gm[ids[k]].value)
    decreases |ids|
  {
    if k < |ids| - 1 {
      AndLinesAt(gm, ids[..|ids| - 1], k);
    }
  }

  lemma {:induction false} AndLinesConcat(gm: GateMap, a: seq<nat>, b: seq<nat>)
    ensures AndLines(gm, a + b) == AndLines(gm, a) + AndLines(gm, b)
    decreases |b|
  {
    if b != [] {
      assert (a + b)[..|a + b| - 1] == a + b[..|b| - 1];
      AndLinesConcat(gm, a, b[..|b| - 1]);
    } else {
      assert a + b == a;
    }
  }

  lemma AppendAssoc<T>(a: seq<T>, b: seq<T>, c: seq<T>, d: seq<T>)
    ensures a + b + c + d == a + (b + c + d)
  {
  }

  lemma AndLinesStep(gm: GateMap, a: seq<nat>, b: seq<nat>, id: nat)
    requires Live(gm, id)
    ensures AndLines(gm, a + b + [id]) == AndLines(gm, a) + AndLines(gm, b) + [AndOf(gm[id].value)]
  {
    AndLinesConcat(gm, a, b);
    assert (a + b + [id])[..|a + b + [id]| - 1] == a + b;
  }

  /**
   * The walks from each root in turn, each starting with the gates the previous ones left
   * unvisited: what the PO loops of `writeAag` count and write.
   */
  ghost function WalkAll(gm: GateMap, pend: set<nat>, roots: seq<nat>): (r: (set<nat>, seq<nat>))
    requires FaninsLive(gm) && NoPoRead(gm)
    requires forall k :: 0 <= k < |roots| ==> Live(gm, roots[k])
    ensures r.0 <= pend
  {
    if roots == [] then (pend, [])
    else
      var r0 := WalkAll(gm, pend, roots[..|roots| - 1]);
      var w := Walk(gm, r0.0, roots[|roots| - 1]);
      (w.0, r0.1 + w.1)
  }

  /** The walks from one more root: the earlier walks, then a walk from that root with what they left pending. */
  lemma WalkAllSnoc(gm: GateMap, pend: set<nat>, roots: seq<nat>, k: nat)
    requires FaninsLive(gm) && NoPoRead(gm) && k < |roots|
    requires forall j :: 0 <= j < |roots| ==> Live(gm, roots[j])
    ensures var r0 := WalkAll(gm, pend, roots[..k]); var w := Walk(gm, r0.0, roots[k]);
      WalkAll(gm, pend, roots[..k + 1]) == (w.0, r0.1 + w.1)
  {
    assert roots[..k + 1][..k] == roots[..k];
  }

  /** All the walks together list each gate once, all of them AIGs that were unvisited. */
  lemma {:induction false} WalkAllLists(gm: GateMap, pend: set<nat>, roots: seq<nat>)
    requires FaninsLive(gm) && NoPoRead(gm)
    requires forall k :: 0 <= k < |roots| ==> Live(gm, roots[k])
    ensures WalkListed(gm, pend, WalkAll(gm, pend, roots))
    decreases |roots|
  {
    if roots == [] {
      assert Elems([]) == {};
    } else {
      var r0 := WalkAll(gm, pend, roots[..|roots| - 1]);
      WalkAllLists(gm, pend, roots[..|roots| - 1]);
      var w := Walk(gm, r0.0, roots[|roots| - 1]);
      WalkLists(gm, r0.0, roots[|roots| - 1]);
      ElemsConcat(r0.1, w.1);
      NoDupConcat(r0.1, w.1);
      var l := r0.1 + w.1;
      forall k | 0 <= k < |l|
        ensures Live(gm, l[k]) && gm[l[k]].value.kind.Aig?
      {
        if k >= |r0.1| {
          assert l[k] == w.1[k - |r0.1|];
        }
      }
    }
  }

  /** The ids below n: every gate of a table of size n. */
  ghost function Below(n: nat): (s: set<nat>)
    ensures forall i: nat :: i in s <==> i < n
  {
    if n == 0 then {} else Below(n - 1) + {n - 1}
  }

  /** At the start of an epoch every gate of the table is unvisited. */
  lemma FreshEpoch(marks: seq<nat>, ep: nat)
    requires forall i :: 0 <= i < |marks| ==> marks[i] != ep
    ensures Unvisited(marks, ep) == Below(|marks|)
  {
  }

  /** The symbol lines of the named pins, in pin order: the pin's position and its name. */
  function Symbols(gm: GateMap, pins: seq<nat>, input: bool): (s: seq<Symbol>)
    requires forall k :: 0 <= k < |pins| ==> pins[k] < |gm| && gm[pins[k]].Some?
    ensures forall j :: 0 <= j < |s| ==>
      && s[j].input == input && s[j].index < |pins|
      && s[j].name == gm[pins[s[j].index]].value.name && s[j].name != []
    ensures forall j, k :: 0 <= j < k < |s| ==> s[j].index < s[k].index
  {
    if pins == [] then []
    else
      var n := |pins| - 1;
      var name := gm[pins[n]].value.name;
      Symbols(gm, pins[..n], input) + if name != [] then [Symbol(input, n, name)] else []
  }

  /** Every named pin has its symbol line. */
  lemma {:induction false} SymbolsComplete(gm: GateMap, pins: seq<nat>, input: bool, k: nat)
    requires forall k :: 0 <= k < |pins| ==> pins[k] < |gm| && gm[pins[k]].Some?
    requires k < |pins| && gm[pins[k]].value.name != []
    ensures exists j :: 0 <= j < |Symbols(gm, pins, input)| && Symbols(gm, pins, input)[j].index == k
  {
    var n := |pins| - 1;
    var s0 := Symbols(gm, pins[..n], input);
    if k < n {
      SymbolsComplete(gm, pins[..n], input, k);
      var j :| 0 <= j < |s0| && s0[j].index == k;
      assert Symbols(gm, pins, input)[j] == s0[j];
    } else {
      assert Symbols(gm, pins, input)[|s0|].index == k;
    }
  }

  /** gm' is gm with some fanout lists permuted: the same slots, kinds, names and fanout multisets. */
  ghost predicate Reordered(gm: GateMap, gm': GateMap)
  {
    && |gm'| == |gm|
    && (forall i :: 0 <= i < |gm| ==> gm'[i].Some? == gm[i].Some?)
    && (forall i :: 0 <= i < |gm| && gm[i].Some? ==>
          && gm'[i].value == gm[i].value.(fanouts := gm'[i].value.fanouts)
          && multiset(gm'[i].value.fanouts) == multiset(gm[i].value.fanouts))
  }

  lemma ReorderedTrans(gm0: GateMap, gm1: GateMap, gm2: GateMap)
    requires Reordered(gm0, gm1) && Reordered(gm1, gm2)
    ensures Reordered(gm0, gm2)
  {
  }

  /** Permuting fanout lists keeps every fanin and fanout count, so it keeps every table property. */
  lemma ReorderedKeeps(gm: GateMap, gm': GateMap)
    requires Reordered(gm, gm')
    ensures forall i: nat :: Live(gm', i) == Live(gm, i)
    ensures forall c: nat :: Ins(gm', c) == Ins(gm, c) && Outs(gm', c) == Outs(gm, c)
    ensures Mirror(gm) ==> Mirror(gm')
    ensures IdsMatch(gm) ==> IdsMatch(gm')
    ensures NoPoRead(gm) ==> NoPoRead(gm')
  {
    assert forall c: nat :: Ins(gm', c) == Ins(gm, c) && Outs(gm', c) == Outs(gm, c);
  }

  /** Every live gate listed in ids, or already sorted in gm0, has its fanouts sorted in gm. */
  ghost predicate SortedWhere(gm0: GateMap, gm: GateMap, ids: seq<nat>)
    requires |gm0| == |gm|
  {
    forall i :: 0 <= i < |gm| && gm[i].Some? && gm0[i].Some? && (i in ids || SortedBy(gm0[i].value.fanouts, RefId)) ==>
      SortedBy(gm[i].value.fanouts, RefId)
  }

  /**
   * After sorting the fanouts of the PIs, the AND gates, the UNDEF gates and the constant in turn, every
   * gate but a PO has its fanouts sorted.
   */
  lemma SortedAll(gm0: GateMap, gm1: GateMap, gm2: GateMap, gm3: GateMap, gm4: GateMap,
                  pis: seq<nat>, pos: seq<nat>, aigs: seq<nat>, undefs: seq<nat>)
    requires ListsOk(gm0, pis, pos, aigs, undefs)
    requires Reordered(gm0, gm1) && SortedWhere(gm0, gm1, pis)
    requires Reordered(gm1, gm2) && SortedWhere(gm1, gm2, aigs)
    requires Reordered(gm2, gm3) && SortedWhere(gm2, gm3, undefs)
    requires Reordered(gm3, gm4) && SortedWhere(gm3, gm4, [0])
    ensures forall i: nat :: Live(gm4, i) && !gm4[i].value.kind.Po? ==> SortedBy(gm4[i].value.fanouts, RefId)
  {
    forall i: nat | Live(gm4, i) && !gm4[i].value.kind.Po?
      ensures SortedBy(gm4[i].value.fanouts, RefId)
    {
      assert Live(gm0, i) && gm0[i].value.kind == gm4[i].value.kind;
      match gm4[i].value.kind {
        case Pi =>
          assert i in pis && SortedBy(gm1[i].value.fanouts, RefId);
        case Aig(_, _) =>
          assert i in aigs && SortedBy(gm2[i].value.fanouts, RefId);
        case Undef =>
          assert i in undefs && SortedBy(gm3[i].value.fanouts, RefId);
        case Const =>
          assert i in [0];
      }
    }
  }

  /** One `sortFanouts` call of the loop over a gate list. */
  lemma SortStep(gm0: GateMap, gm: GateMap, ids: seq<nat>, id: nat)
    requires Reordered(gm0, gm) && SortedWhere(gm0, gm, ids)
    ensures var gm' := if Live(gm, id) then gm[id := Some(SortFanouts(gm[id].value))] else gm;
      Reordered(gm0, gm') && SortedWhere(gm0, gm', ids + [id])
  {
  }

  /** A replacement keeps every gate's id and the constant at id 0, and reads no PO. */
  lemma ReplacedTable(gm: GateMap, g: nat, n: nat, x: bool)
    requires Mirror(gm) && IdsMatch(gm) && NoPoRead(gm) && Live(gm, g) && Live(gm, n) && n != g && g != 0
    requires |gm| > 0 && gm[0].Some? && gm[0].value.kind.Const? && !gm[n].value.kind.Po?
    ensures var r := Replaced(gm, g, n, x);
      |r| > 0 && r[0].Some? && r[0].value.kind.Const? && IdsMatch(r) && NoPoRead(r)
  {
    var r := Replaced(gm, g, n, x);
    forall i | 0 <= i < |r| && r[i].Some?
      ensures r[i].value.id == i && r[i].value.kind.Po? == gm[i].value.kind.Po? && (i == 0 ==> r[i].value.kind.Const?)
    {
      ReplacedSlot(gm, g, n, x, i);
    }
    forall c: nat, f | Live(r, c) && f in Fanins(r[c].value.kind)
      ensures !(Live(r, f.id) && r[f.id].value.kind.Po?)
    {
      ReplacedIns(gm, g, n, x, c, f.id, f.inv);
      assert Ins(r, c)[f] > 0;
      if f.id != n {
        assert Ins(gm, c)[f] > 0;
      }
    }
  }

  /**
   * The PI and PO lists name live gates of their kind, the AIG and UNDEF lists name gates of their
   * kind or emptied slots, and every live gate is in the list of its kind (the constant is id 0).
   */
  ghost predicate ListsOk(gm: GateMap, pis: seq<nat>, pos: seq<nat>, aigs: seq<nat>, undefs: seq<nat>)
  {
    && (forall k :: 0 <= k < |pis| ==> Live(gm, pis[k]) && gm[pis[k]].value.kind.Pi?)
    && (forall k :: 0 <= k < |pos| ==> Live(gm, pos[k]) && gm[pos[k]].value.kind.Po?)
    && (forall k :: 0 <= k < |aigs| && Live(gm, aigs[k]) ==> gm[aigs[k]].value.kind.Aig?)
    && (forall k :: 0 <= k < |undefs| && Live(gm, undefs[k]) ==> gm[undefs[k]].value.kind.Undef?)
    && (forall i: nat :: Live(gm, i) ==>
          match gm[i].value.kind
          case Const => i == 0
          case Pi => i in pis
          case Po(_) => i in pos
          case Aig(_, _) => i in aigs
          case Undef => i in undefs)
  }

  /** gm' only emptied slots of gm and kept every other gate's kind; PIs, POs and the constant stay. */
  ghost predicate KindsKept(gm: GateMap, gm': GateMap)
  {
    && |gm'| == |gm|
    && (forall i: nat :: Live(gm', i) ==> Live(gm, i) && TypeOf(gm'[i].value.kind) == TypeOf(gm[i].value.kind))
    && (forall i: nat :: Live(gm, i) && (gm[i].value.kind.Pi? || gm[i].value.kind.Po? || gm[i].value.kind.Const?) ==> Live(gm', i))
  }

  /** A valid table: the constant in slot 0, each gate in the slot of its id, fanouts mirroring fanins, no gate reading a PO. */
  ghost predicate TableOk(gm: GateMap)
  {
    |gm| > 0 && gm[0].Some? && gm[0].value.kind.Const? && IdsMatch(gm) && Mirror(gm) && NoPoRead(gm)
  }

  /** The gate lists stay consistent when gates only disappear from AIG or UNDEF slots. */
  lemma ListsKept(gm: GateMap, gm': GateMap, pis: seq<nat>, pos: seq<nat>, aigs: seq<nat>, undefs: seq<nat>)
    requires ListsOk(gm, pis, pos, aigs, undefs) && KindsKept(gm, gm')
    ensures ListsOk(gm', pis, pos, aigs, undefs)
  {
  }

  /** A replacement of an AND gate only empties its slot and keeps every other gate's kind. */
  lemma ReplacedKinds(gm: GateMap, g: nat, n: nat, x: bool)
    requires Live(gm, g) && gm[g].value.kind.Aig?
    ensures KindsKept(gm, Replaced(gm, g, n, x))
  {
    var r := Replaced(gm, g, n, x);
    forall i: nat | Live(r, i)
      ensures Live(gm, i) && TypeOf(r[i].value.kind) == TypeOf(gm[i].value.kind)
    {
      ReplacedSlot(gm, g, n, x, i);
    }
    forall i: nat | Live(gm, i) && (gm[i].value.kind.Pi? || gm[i].value.kind.Po? || gm[i].value.kind.Const?)
      ensures Live(r, i)
    {
      ReplacedSlot(gm, g, n, x, i);
    }
  }

  class CirMgr {
    var PIs: seq<nat>
    var POs: seq<nat>
    var AIGs: seq<nat>
    var UNDEFs: seq<nat>
    var gateMap: GateMap
    var dfsList: seq<nat>
    var fecGrps: seq<seq<Ref>>
    /** The simulation value of each gate id. */
    var values: seq<SimValue>
    /** `_ref` of each gate id. */
    var marks: seq<nat>
    /** `CirGate::_global_ref`, the current visit epoch. */
    var globalRef: nat

    /** The gate table: the constant at id 0, gates at their own ids, fanouts mirroring fanins. */
    ghost predicate Table()
      reads this`gateMap
    {
      TableOk(gateMap)
    }

    /** Marks never run ahead of the epoch, so a new epoch leaves every gate unvisited. */
    ghost predicate Epoch()
      reads this`marks, this`globalRef, this`gateMap
    {
      && |marks| == |gateMap| && globalRef >= 1
      && forall i :: 0 <= i < |marks| ==> marks[i] <= globalRef
    }

    /** The gate lists name gates of their kind, and every gate is in the list of its kind. */
    ghost predicate Lists()
      reads this`PIs, this`POs, this`AIGs, this`UNDEFs, this`gateMap
    {
      ListsOk(gateMap, PIs, POs, AIGs, UNDEFs)
    }

    ghost predicate Valid()
      reads this`gateMap, this`marks, this`globalRef, this`PIs, this`POs, this`AIGs, this`UNDEFs, this`values
    {
      Table() && Epoch() && Lists() && |values| == |gateMap|
    }

    /** `getGate(gid)`: nothing past the end of the table, otherwise the slot itself. */
    function GetGate(gid: nat): (r: Option<Gate>)
      reads this`gateMap
      ensures r.Some? <==> Live(gateMap, gid)
      ensures r.Some? ==> r == gateMap[gid]
    {
      if gid >= |gateMap| then None else gateMap[gid]
    }

    /** A gate found by id carries that id. */
    lemma GetGateId(gid: nat)
      requires Table() && GetGate(gid).Some?
      ensures GetGate(gid).value.id == gid
    {
    }

    predicate IsVisited(i: nat)
      reads this`marks, this`globalRef
      requires i < |marks|
    {
      marks[i] == globalRef
    }

    /** The gates not visited in the current epoch. */
    ghost function Pending(): set<nat>
      reads this`marks, this`globalRef
    {
      Unvisited(marks, globalRef)
    }

    /** `resetGlobalRef`: start a new epoch, in which no gate is visited yet. */
    method ResetGlobalRef()
      requires Epoch()
      modifies this`globalRef
      ensures Epoch() && globalRef == old(globalRef) + 1
      ensures forall i :: 0 <= i < |marks| ==> !IsVisited(i)
    {
      globalRef := globalRef + 1;
    }

    /** `visit`: mark gate i as visited in the current epoch; no other mark changes. */
    method Visit(i: nat)
      requires Epoch() && i < |marks|
      modifies this`marks
      ensures Epoch() && IsVisited(i)
      ensures marks == old(marks)[i := globalRef]
      ensures Pending() == old(Pending()) - {i}
    {
      marks := marks[i := globalRef];
    }

    /**
     * `dfsTraversal`, dispatched on the gate's kind: an UNDEF gate does nothing; the others visit the
     * gate once, traverse its fanins and append it after them.
     */
    method DfsTraversal(id: nat, list: seq<nat>, ghost stack: set<nat>, ghost rank: nat -> nat) returns (list': seq<nat>)
      requires FaninsLive(gateMap) && Epoch() && Live(gateMap, id)
      requires DfsState(gateMap, marks, globalRef, list, stack, rank)
      requires Ranked(gateMap, rank) ==> forall s :: s in stack ==> rank(id) < rank(s)
      modifies this`marks
      decreases Pending(), 2
      ensures Epoch() && DfsState(gateMap, marks, globalRef, list', stack, rank)
      ensures Extends(gateMap, old(marks), marks, globalRef, list, list')
      ensures Within(gateMap, list, list', id)
      ensures Traversed(gateMap, id) ==> id in list' || id in stack
      ensures gateMap[id].value.kind.Undef? ==> list' == list
    {
      match gateMap[id].value.kind {
        case Undef =>
          list' := list;
        case Aig(_, _) =>
          list' := DfsAig(id, list, stack, rank);
        case Po(_) =>
          list' := DfsPo(id, list, stack, rank);
        case _ =>
          list' := DfsLeaf(id, list, stack, rank);
      }
    }

    /** `AIGGate::dfsTraversal`: visit once, traverse fanin1 then fanin2, append the gate. */
    method DfsAig(id: nat, list: seq<nat>, ghost stack: set<nat>, ghost rank: nat -> nat) returns (list': seq<nat>)
      requires FaninsLive(gateMap) && Epoch() && Live(gateMap, id) && gateMap[id].value.kind.Aig?
      requires DfsState(gateMap, marks, globalRef, list, stack, rank)
      requires Ranked(gateMap, rank) ==> forall s :: s in stack ==> rank(id) < rank(s)
      modifies this`marks
      decreases Pending(), 1
      ensures Epoch() && DfsState(gateMap, marks, globalRef, list', stack, rank)
      ensures Extends(gateMap, old(marks), marks, globalRef, list, list')
      ensures Within(gateMap, list, list', id)
      ensures id in list' || id in stack
    {
      if IsVisited(id) {
        return list;
      }
      ghost var marks0, ep, entry := marks, globalRef, Pending();
      VisitOpens(gateMap, marks, ep, list, stack, rank, id);
      Visit(id);
      ghost var m1 := marks;
      var g := gateMap[id].value;
      list' := DfsFanin(id, g.kind.fanin1, list, stack + {id}, rank, entry);
      ghost var l2, m2 := list', marks;
      list' := DfsFanin(id, g.kind.fanin2, list', stack + {id}, rank, entry);
      ExtendsTrans(gateMap, m1, m2, marks, ep, list, l2, list');
      WithinTrans(gateMap, list, l2, list', id);
      BothFaninsDone(gateMap, id, l2, list', stack + {id}, rank);
      CloseGate(gateMap, marks0, marks, ep, list, list', stack, rank, id);
      list' := list' + [id];
    }

    /** `POGate::dfsTraversal`: visit once, traverse the fanin, append the gate. */
    method DfsPo(id: nat, list: seq<nat>, ghost stack: set<nat>, ghost rank: nat -> nat) returns (list': seq<nat>)
      requires FaninsLive(gateMap) && Epoch() && Live(gateMap, id) && gateMap[id].value.kind.Po?
      requires DfsState(gateMap, marks, globalRef, list, stack, rank)
      requires Ranked(gateMap, rank) ==> forall s :: s in stack ==> rank(id) < rank(s)
      modifies this`marks
      decreases Pending(), 1
      ensures Epoch() && DfsState(gateMap, marks, globalRef, list', stack, rank)
      ensures Extends(gateMap, old(marks), marks, globalRef, list, list')
      ensures Within(gateMap, list, list', id)
      ensures id in list' || id in stack
    {
      if IsVisited(id) {
        return list;
      }
      ghost var marks0, ep, entry := marks, globalRef, Pending();
      VisitOpens(gateMap, marks, ep, list, stack, rank, id);
      Visit(id);
      var g := gateMap[id].value;
      list' := DfsFanin(id, g.kind.fanin, list, stack + {id}, rank, entry);
      assert Fanins(g.kind) == [g.kind.fanin];
      CloseGate(gateMap, marks0, marks, ep, list, list', stack, rank, id);
      list' := list' + [id];
    }

    /** `PIGate::dfsTraversal` and `CONSTGate::dfsTraversal`: visit once and append the gate. */
    method DfsLeaf(id: nat, list: seq<nat>, ghost stack: set<nat>, ghost rank: nat -> nat) returns (list': seq<nat>)
      requires Epoch() && Live(gateMap, id) && (gateMap[id].value.kind.Pi? || gateMap[id].value.kind.Const?)
      requires DfsState(gateMap, marks, globalRef, list, stack, rank)
      requires Ranked(gateMap, rank) ==> forall s :: s in stack ==> rank(id) < rank(s)
      modifies this`marks
      ensures Epoch() && DfsState(gateMap, marks, globalRef, list', stack, rank)
      ensures Extends(gateMap, old(marks), marks, globalRef, list, list')
      ensures Within(gateMap, list, list', id)
      ensures id in list' || id in stack
    {
      if IsVisited(id) {
        return list;
      }
      ghost var marks0, ep := marks, globalRef;
      VisitOpens(gateMap, marks, ep, list, stack, rank, id);
      Visit(id);
      ExtendsRefl(gateMap, marks, ep, list);
      CloseGate(gateMap, marks0, marks, ep, list, list, stack, rank, id);
      list' := list + [id];
    }

    /** One fanin of an open gate: traverse it, staying within the gate's fanin cone. */
    method DfsFanin(id: nat, r: Ref, list: seq<nat>, ghost stack: set<nat>, ghost rank: nat -> nat, ghost bound: set<nat>)
      returns (list': seq<nat>)
      requires FaninsLive(gateMap) && Epoch() && Live(gateMap, id) && r in Fanins(gateMap[id].value.kind)
      requires DfsState(gateMap, marks, globalRef, list, stack, rank) && id in stack
      requires Ranked(gateMap, rank) ==> forall s :: s in stack ==> rank(id) <= rank(s)
      requires Pending() < bound
      modifies this`marks
      decreases bound, 0
      ensures Epoch() && DfsState(gateMap, marks, globalRef, list', stack, rank)
      ensures Extends(gateMap, old(marks), marks, globalRef, list, list')
      ensures Within(gateMap, list, list', id)
      ensures FaninDone(gateMap, r, list', stack, rank)
      ensures Pending() < bound
    {
      list' := DfsTraversal(r.id, list, stack, rank);
      WithinFanin(gateMap, list, list', id, r);
      ExtendsShrinks(gateMap, old(marks), marks, globalRef, list, list');
    }

    /**
     * `DFS`: a new epoch, an empty list, and a traversal from each PO in order. The list holds each
     * gate once, no UNDEF, every PO, every listed fanin of a listed gate and nothing outside the POs'
     * fanin cones; without a cycle every gate comes after its fanins.
     */
    method Dfs()
      requires Valid()
      modifies this`marks, this`globalRef, this`dfsList
      ensures Valid() && DfsOk(gateMap, dfsList, POs)
    {
      ResetGlobalRef();
      MirrorFaninsLive(gateMap);
      ghost var rank: nat -> nat := i => 0;
      if Acyclic(gateMap) {
        rank :| Ranked(gateMap, rank);
      }
      assert Table() && Lists() && |values| == |gateMap|;
      DfsStart(gateMap, marks, globalRef, rank);
      var list := DfsFrom(POs, rank);
      DfsDone(gateMap, marks, globalRef, list, rank, POs);
      dfsList := list;
    }

    /** The loop of `DFS`: a traversal from each root in order, in the current epoch. */
    method DfsFrom(roots: seq<nat>, ghost rank: nat -> nat) returns (list: seq<nat>)
      requires FaninsLive(gateMap) && Epoch() && DfsState(gateMap, marks, globalRef, [], {}, rank)
      requires forall j :: 0 <= j < |roots| ==> Traversed(gateMap, roots[j])
      modifies this`marks
      ensures Epoch() && DfsState(gateMap, marks, globalRef, list, {}, rank) && WithinAll(gateMap, list, roots)
      ensures forall j :: 0 <= j < |roots| ==> roots[j] in list
    {
      list := [];
      var i := 0;
      while i < |roots|
        invariant i <= |roots| && Epoch()
        invariant DfsState(gateMap, marks, globalRef, list, {}, rank) && WithinAll(gateMap, list, roots)
        invariant forall j :: 0 <= j < i ==> roots[j] in list
      {
        ghost var before := list;
        list := DfsTraversal(roots[i], list, {}, rank);
        WithinAllStep(gateMap, before, list, roots, i);
        RootsListed(before, list, roots, i);
        i := i + 1;
      }
    }

    /**
     * `countGate`: adds to cnt the number of AND gates the walk from gate id reaches, and visits them;
     * a PO counts through its fanin, other gates count nothing.
     */
    method CountGate(id: nat, cnt: nat) returns (cnt': nat)
      requires FaninsLive(gateMap) && NoPoRead(gateMap) && Epoch() && Live(gateMap, id)
      modifies this`marks
      decreases Pending(), if gateMap[id].value.kind.Po? then 1 else 0
      ensures Epoch()
      ensures Pending() == Walk(gateMap, old(Pending()), id).0
      ensures cnt' == cnt + |Walk(gateMap, old(Pending()), id).1|
    {
      match gateMap[id].value.kind {
        case Po(f) =>
          cnt' := CountGate(f.id, cnt);
        case Aig(f1, f2) =>
          if IsVisited(id) {
            return cnt;
          }
          Visit(id);
          cnt' := CountGate(f1.id, cnt);
          if f1.id != f2.id {
            cnt' := CountGate(f2.id, cnt');
          }
          cnt' := cnt' + 1;
        case _ =>
          cnt' := cnt;
      }
    }

    /**
     * `writeGate`: appends the AND lines of the walk from gate id and visits those gates; a PO writes
     * through its fanin, an AIG writes itself after its fanins, other gates write nothing.
     */
    method WriteGate(id: nat, out: seq<AndDef>) returns (out': seq<AndDef>)
      requires FaninsLive(gateMap) && NoPoRead(gateMap) && Epoch() && Live(gateMap, id)
      modifies this`marks
      decreases Pending(), if gateMap[id].value.kind.Po? then 2 else 1
      ensures Epoch()
      ensures Pending() == Walk(gateMap, old(Pending()), id).0
      ensures out' == out + AndLines(gateMap, Walk(gateMap, old(Pending()), id).1)
    {
      match gateMap[id].value.kind {
        case Po(f) =>
          out' := WriteGate(f.id, out);
        case Aig(_, _) =>
          out' := WriteAig(id, out);
        case _ =>
          out' := out;
      }
    }

    /** `AIGGate::writeGate`: once per epoch, the fanins' lines, then `2*id fanin1 fanin2`. */
    method WriteAig(id: nat, out: seq<AndDef>) returns (out': seq<AndDef>)
      requires FaninsLive(gateMap) && NoPoRead(gateMap) && Epoch() && Live(gateMap, id) && gateMap[id].value.kind.Aig?
      modifies this`marks
      decreases Pending(), 0
      ensures Epoch()
      ensures Pending() == Walk(gateMap, old(Pending()), id).0
      ensures out' == out + AndLines(gateMap, Walk(gateMap, old(Pending()), id).1)
    {
      if IsVisited(id) {
        return out;
      }
      var g := gateMap[id].value;
      var f1, f2 := g.kind.fanin1, g.kind.fanin2;
      ghost var p0 := Pending();
      Visit(id);
      ghost var p1 := Walk(gateMap, p0 - {id}, f1.id).0;
      ghost var l1 := Walk(gateMap, p0 - {id}, f1.id).1;
      out' := WriteGate(f1.id, out);
      ghost var p2: set<nat>, l2: seq<nat> := p1, [];
      if f1.id != f2.id {
        p2, l2 := Walk(gateMap, p1, f2.id).0, Walk(gateMap, p1, f2.id).1;
        out' := WriteGate(f2.id, out');
      }
      assert Walk(gateMap, p0, id) == (p2, l1 + l2 + [id]);
      AndLinesStep(gateMap, l1, l2, id);
      AppendAssoc(out, AndLines(gateMap, l1), AndLines(gateMap, l2), [AndOf(g)]);
      out' := out' + [AndOf(g)];
    }

    /**
     * `writeAag`: count the AND gates the POs reach in one epoch, then, in a fresh epoch, the header,
     * `2*id` per PI, each PO's fanin literal, the AND lines the POs reach, and the symbols of the
     * named PIs and POs. M is the unsigned (size_t) difference of the sizes.
     */
    method WriteAag() returns (aag: Aag)
      requires Valid()
      modifies this`marks, this`globalRef
      ensures Valid()
      ensures aag.m == (|gateMap| - |POs| - 1) % 0x1_0000_0000_0000_0000
      ensures aag.i == |aag.inputs| == |PIs| && aag.l == 0 && aag.o == |aag.outputs| == |POs|
      ensures aag.a == |aag.ands|
      ensures FaninsLive(gateMap) && aag.ands == AndLines(gateMap, WalkAll(gateMap, Below(|gateMap|), POs).1)
      ensures forall k :: 0 <= k < |PIs| ==> RefOf(aag.inputs[k]) == Ref(PIs[k], false)
      ensures forall k :: 0 <= k < |POs| ==> RefOf(aag.outputs[k]) == gateMap[POs[k]].value.kind.fanin
      ensures aag.symbols == Symbols(gateMap, PIs, true) + Symbols(gateMap, POs, false)
    {
      MirrorFaninsLive(gateMap);
      var cnt := CountFrom();
      ghost var counted := WalkAll(gateMap, Below(|gateMap|), POs).1;
      var ands := WriteFrom();
      var inputs := InputLits();
      var outputs := OutputLits();
      var symbols := NamedPins(PIs, true);
      var outSymbols := NamedPins(POs, false);
      aag := Aag((|gateMap| - |POs| - 1) % 0x1_0000_0000_0000_0000, |PIs|, 0, |POs|, cnt,
                 inputs, outputs, ands, symbols + outSymbols);
    }

    /** The counting pass of `writeAag`: a fresh epoch and `countGate` from each PO in order. */
    method CountFrom() returns (cnt: nat)
      requires Valid() && FaninsLive(gateMap)
      modifies this`marks, this`globalRef
      ensures Valid()
      ensures cnt == |WalkAll(gateMap, Below(|gateMap|), POs).1|
    {
      ResetGlobalRef();
      FreshEpoch(marks, globalRef);
      ghost var start := Pending();
      ghost var gm, pos := gateMap, POs;
      assert NoPoRead(gm) && forall j :: 0 <= j < |pos| ==> Live(gm, pos[j]);
      cnt := 0;
      var k := 0;
      while k < |POs|
        invariant k <= |pos| && Epoch()
        invariant Pending() == WalkAll(gm, start, pos[..k]).0
        invariant cnt == |WalkAll(gm, start, pos[..k]).1|
      {
        WalkAllSnoc(gm, start, pos, k);
        cnt := CountGate(POs[k], cnt);
        k := k + 1;
      }
      assert pos[..k] == pos;
    }

    /** The writing pass of `writeAag`: a fresh epoch and `writeGate` from each PO in order. */
    method WriteFrom() returns (ands: seq<AndDef>)
      requires Valid() && FaninsLive(gateMap)
      modifies this`marks, this`globalRef
      ensures Valid()
      ensures ands == AndLines(gateMap, WalkAll(gateMap, Below(|gateMap|), POs).1)
    {
      ResetGlobalRef();
      FreshEpoch(marks, globalRef);
      ghost var start := Pending();
      ghost var gm, pos := gateMap, POs;
      assert NoPoRead(gm) && forall j :: 0 <= j < |pos| ==> Live(gm, pos[j]);
      ands := [];
      var k := 0;
      while k < |POs|
        invariant k <= |pos| && Epoch()
        invariant Pending() == WalkAll(gm, start, pos[..k]).0
        invariant ands == AndLines(gm, WalkAll(gm, start, pos[..k]).1)
      {
        WalkAllSnoc(gm, start, pos, k);
        ghost var before := WalkAll(gm, start, pos[..k]);
        ands := WriteGate(POs[k], ands);
        AndLinesConcat(gm, before.1, Walk(gm, before.0, pos[k]).1);
        k := k + 1;
      }
      assert pos[..k] == pos;
    }

    /** The input lines of `writeAag`: `2*id` per PI, in order. */
    method InputLits() returns (inputs: seq<nat>)
      ensures |inputs| == |PIs|
      ensures forall k :: 0 <= k < |PIs| ==> RefOf(inputs[k]) == Ref(PIs[k], false)
    {
      inputs := [];
      var k := 0;
      while k < |PIs|
        invariant k <= |PIs| && |inputs| == k
        invariant forall j :: 0 <= j < k ==> inputs[j] == 2 * PIs[j]
      {
        inputs := inputs + [2 * PIs[k]];
        k := k + 1;
      }
    }

    /** The output lines of `writeAag`: the fanin literal of each PO, in order. */
    method OutputLits() returns (outputs: seq<nat>)
      requires forall k :: 0 <= k < |POs| ==> POs[k] < |gateMap| && gateMap[POs[k]].Some? && gateMap[POs[k]].value.kind.Po?
      ensures |outputs| == |POs|
      ensures forall k :: 0 <= k < |POs| ==> RefOf(outputs[k]) == gateMap[POs[k]].value.kind.fanin
    {
      outputs := [];
      var k := 0;
      while k < |POs|
        invariant k <= |POs| && |outputs| == k
        invariant forall j :: 0 <= j < k ==> RefOf(outputs[j]) == gateMap[POs[j]].value.kind.fanin
      {
        outputs := outputs + [GetFaninLit(gateMap[POs[k]].value, 0)];
        k := k + 1;
      }
    }

    /** The symbol lines of the named pins of a pin list, as the two symbol loops of `writeAag` write them. */
    method NamedPins(pins: seq<nat>, input: bool) returns (s: seq<Symbol>)
      requires forall k :: 0 <= k < |pins| ==> pins[k] < |gateMap| && gateMap[pins[k]].Some?
      ensures s == Symbols(gateMap, pins, input)
    {
      s := [];
      var k := 0;
      while k < |pins|
        invariant k <= |pins|
        invariant s == Symbols(gateMap, pins[..k], input)
      {
        assert pins[..k + 1][..k] == pins[..k];
        var name := gateMap[pins[k]].value.name;
        if name != [] {
          s := s + [Symbol(input, k, name)];
        }
        k := k + 1;
      }
      assert pins[..k] == pins;
    }

    /**
     * `sortAllFanouts`: sort the fanout list of every PI, AIG and UNDEF gate and of the constant
     * by consumer id. Only the order of fanout lists changes.
     */
    method SortAllFanouts()
      requires Valid()
      modifies this`gateMap
      ensures Valid() && Reordered(old(gateMap), gateMap)
      ensures forall i: nat :: Live(gateMap, i) && !gateMap[i].value.kind.Po? ==> SortedBy(gateMap[i].value.fanouts, RefId)
    {
      ghost var gm0 := gateMap;
      SortFanoutsOf(PIs);
      ghost var gm1 := gateMap;
      SortFanoutsOf(AIGs);
      ReorderedTrans(gm0, gm1, gateMap);
      ghost var gm2 := gateMap;
      SortFanoutsOf(UNDEFs);
      ReorderedTrans(gm0, gm2, gateMap);
      ghost var gm3 := gateMap;
      SortFanoutsOf([0]);
      ReorderedTrans(gm0, gm3, gateMap);
      SortedAll(gm0, gm1, gm2, gm3, gateMap, PIs, POs, AIGs, UNDEFs);
      ReorderedValid(gm0);
    }

    /** Permuting the fanout lists of a valid manager's table keeps the manager valid. */
    lemma ReorderedValid(gm0: GateMap)
      requires TableOk(gm0) && ListsOk(gm0, PIs, POs, AIGs, UNDEFs) && Reordered(gm0, gateMap)
      requires |marks| == |gm0| && globalRef >= 1 && (forall i :: 0 <= i < |marks| ==> marks[i] <= globalRef)
      requires |values| == |gm0|
      ensures Valid()
    {
      ReorderedKeeps(gm0, gateMap);
      forall i: nat | Live(gateMap, i)
        ensures gateMap[i].value.kind == gm0[i].value.kind
      {
        assert gateMap[i].value == gm0[i].value.(fanouts := gateMap[i].value.fanouts);
      }
    }

    /** `sortFanouts` on each live gate of a list, in order. */
    method SortFanoutsOf(ids: seq<nat>)
      modifies this`gateMap
      ensures Reordered(old(gateMap), gateMap) && SortedWhere(old(gateMap), gateMap, ids)
    {
      var k := 0;
      while k < |ids|
        invariant k <= |ids| && Reordered(old(gateMap), gateMap) && SortedWhere(old(gateMap), gateMap, ids[..k])
      {
        var id := ids[k];
        SortStep(old(gateMap), gateMap, ids[..k], id);
        if id < |gateMap| && gateMap[id].Some? {
          gateMap := gateMap[id := Some(SortFanouts(gateMap[id].value))];
        }
        assert ids[..k + 1] == ids[..k] + [id];
        k := k + 1;
      }
      assert ids[..k] == ids;
    }

    /** `removeFanout(t)` on the gate with id p. */
    method RemoveFanoutAt(p: nat, t: nat)
      modifies this`gateMap
      ensures gateMap == DropFanouts(old(gateMap), p, t)
    {
      if p < |gateMap| && gateMap[p].Some? {
        var gt := RemoveFanout(gateMap[p].value, t);
        gateMap := gateMap[p := Some(gt)];
      }
    }

    /** `rmRelatingFanouts` of gate g: each of its fanins forgets g; a gate without fanins does nothing. */
    method RmRelatingFanouts(g: nat)
      requires Live(gateMap, g)
      modifies this`gateMap
      ensures gateMap == Strip(old(gateMap), g)
    {
      StripSteps(gateMap, g);
      match gateMap[g].value.kind {
        case Aig(f1, f2) =>
          RemoveFanoutAt(f1.id, g);
          RemoveFanoutAt(f2.id, g);
        case Po(f) =>
          RemoveFanoutAt(f.id, g);
        case _ =>
      }
    }

    /**
     * The loop of `trivialOpt` and `mergeSTR` over the fanouts of g: each consumer redirects its
     * slots from g to n (`newFanin`), and n lists the consumer with the combined polarity (`setFanout`).
     */
    method MoveFanouts(g: nat, n: nat, x: bool)
      requires Live(gateMap, g) && Live(gateMap, n) && n != g && !gateMap[n].value.kind.Po?
      requires var fo := gateMap[g].value.fanouts;
        forall j, l :: 0 <= j < l < |fo| && fo[j].id == fo[l].id && Live(gateMap, fo[l].id) ==> !gateMap[fo[l].id].value.kind.Po?
      modifies this`gateMap
      ensures gateMap == Rewiring(old(gateMap), g, n, x, old(gateMap)[g].value.fanouts)
    {
      var fo := gateMap[g].value.fanouts;
      ghost var gs := gateMap;
      var k := 0;
      assert fo[..0] == [];
      RewiringNone(gs, g, n, x);
      while k < |fo|
        invariant k <= |fo| && gateMap == Rewiring(gs, g, n, x, fo[..k])
      {
        var e := fo[k];
        RewiringStep(gs, g, n, x, fo, k);
        if e.id < |gateMap| && gateMap[e.id].Some? {
          gateMap := gateMap[e.id := Some(NewFanin(gateMap[e.id].value, g, n, x))];
        }
        var r := SetFanout(gateMap[n].value, Ref(e.id, x != e.inv));
        gateMap := gateMap[n := Some(r.1)];
        k := k + 1;
      }
      assert fo[..k] == fo;
    }

    /**
     * Gate g replaced by gate n with polarity x, the common part of `trivialOpt` and of `strash` with
     * `mergeSTR`: `rmRelatingFanouts`, the consumer loop, and g's slot emptied. Fanouts still mirror
     * fanins afterwards, and the table keeps its other invariants.
     */
    method Replace(g: nat, n: nat, x: bool)
      requires Table() && Live(gateMap, g) && Live(gateMap, n) && n != g && g != 0 && !gateMap[n].value.kind.Po?
      modifies this`gateMap
      ensures gateMap == Replaced(old(gateMap), g, n, x)
      ensures Table()
    {
      ghost var gm := gateMap;
      RmRelatingFanouts(g);
      StrippedPoOnce(gm, g);
      MoveFanouts(g, n, x);
      gateMap := gateMap[g := None];
      ReplacedMirror(gm, g, n, x);
      ReplacedTable(gm, g, n, x);
    }
  }
}
