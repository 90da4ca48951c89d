/**
 * The gates of an And-Inverter Graph. A gate is a value: its id, its kind with the fanins the kind
 * carries, its fanout list and its symbolic name. Every reference to another gate, fanin or fanout,
 * is that gate's id with a polarity bit.
 */
module CirGate {
  import opened CirDef
  import opened Sorting

  /** A fanin or fanout: the gate at the other end and whether the connection inverts. */
  datatype Ref = Ref(id: nat, inv: bool)

  /** `unmask`: the gate of a literal. */
  function Unmask(lit: nat): nat
  {
    lit / 2
  }

  /** `isInverting`: the polarity bit of a literal. */
  predicate IsInverting(lit: nat)
  {
    lit % 2 == 1
  }

  /** A reference packed with its polarity in the low bit (twice the id, plus one when inverted). */
  function Lit(r: Ref): (lit: nat)
    ensures Unmask(lit) == r.id && IsInverting(lit) == r.inv
  {
    2 * r.id + if r.inv then 1 else 0
  }

  /** A literal unpacked into its gate and polarity. */
  function RefOf(lit: nat): (r: Ref)
    ensures Lit(r) == lit
  {
    Ref(Unmask(lit), IsInverting(lit))
  }

  /** Packing loses nothing: distinct references have distinct literals. */
  lemma LitInjective(a: Ref, b: Ref)
    ensures Lit(a) == Lit(b) <==> a == b
  {
    if Lit(a) == Lit(b) {
      assert RefOf(Lit(a)) == a by {
        assert Unmask(Lit(a)) == a.id;
      }
    }
  }

  /** The same gate with the opposite polarity (the literal plus or minus one). */
  function Negate(r: Ref): (r': Ref)
    ensures r'.id == r.id && r'.inv != r.inv
  {
    Ref(r.id, !r.inv)
  }

  /** Each kind with the fanins it stores: a PO has one, an AND gate two, the others none. */
  datatype Kind = Const | Pi | Po(fanin: Ref) | Aig(fanin1: Ref, fanin2: Ref) | Undef

  datatype Gate = Gate(id: nat, lineNo: nat, kind: Kind, fanouts: seq<Ref>, name: seq<byte>)

  /** A simulation word: bit k is the gate's value under the k-th input pattern of a round. */
  type SimValue = seq<bool>

  /** The `GateType` a kind is created with. */
  function TypeOf(k: Kind): (t: GateType)
    ensures t == AigGate <==> k.Aig?
    ensures t == PoGate <==> k.Po?
    ensures t == UndefGate <==> k.Undef?
    ensures t == PiGate <==> k.Pi?
  {
    match k
    case Const => ConstGate
    case Pi => PiGate
    case Po(_) => PoGate
    case Aig(_, _) => AigGate
    case Undef => UndefGate
  }

  /** `getTypeStr`. */
  function TypeStr(t: GateType): (s: string)
    ensures s != ""
  {
    match t
    case UndefGate => "UNDEF"
    case PiGate => "PI"
    case PoGate => "PO"
    case AigGate => "AIG"
    case ConstGate => "CONST"
  }

  /** Distinct types have distinct names, so comparing `getTypeStr()` with a name tests the kind. */
  lemma TypeStrInjective(s: GateType, t: GateType)
    ensures TypeStr(s) == TypeStr(t) <==> s == t
  {
    if s != t {
      assert TypeStr(s)[0] != TypeStr(t)[0] || |TypeStr(s)| != |TypeStr(t)| || TypeStr(s)[1] != TypeStr(t)[1];
    }
  }

  /** The fanins a kind stores, in slot order. */
  function Fanins(k: Kind): (fs: seq<Ref>)
    ensures |fs| == (if k.Aig? then 2 else if k.Po? then 1 else 0)
  {
    match k
    case Po(f) => [f]
    case Aig(f1, f2) => [f1, f2]
    case _ => []
  }

  /** The gate ids a kind reads from. */
  function FaninIds(k: Kind): (ids: set<nat>)
    ensures forall r :: r in Fanins(k) ==> r.id in ids
    ensures forall id :: id in ids ==> exists r :: r in Fanins(k) && r.id == id
  {
    set r | r in Fanins(k) :: r.id
  }

  /**
   * `getFaninLit(num)`: the literal of slot 1 or 2 of an AND gate, the literal of a PO's only
   * fanin whatever num is, and 0 in every other case.
   */
  function GetFaninLit(g: Gate, num: int): (lit: nat)
    ensures g.kind.Aig? && num == 1 ==> RefOf(lit) == g.kind.fanin1
    ensures g.kind.Aig? && num == 2 ==> RefOf(lit) == g.kind.fanin2
    ensures g.kind.Po? ==> RefOf(lit) == g.kind.fanin
    ensures !g.kind.Po? && !(g.kind.Aig? && (num == 1 || num == 2)) ==> lit == 0
  {
    match g.kind
    case Aig(f1, f2) => if num == 1 then Lit(f1) else if num == 2 then Lit(f2) else 0
    case Po(f) => Lit(f)
    case _ => 0
  }

  /** `getFanins`: an AND gate's two fanin literals as a hash key; `TwoFanins(0, 0)` for other kinds. */
  function GetFanins(g: Gate): (t: TwoFanins)
    ensures g.kind.Aig? ==> RefOf(t.fanin1) == g.kind.fanin1 && RefOf(t.fanin2) == g.kind.fanin2
    ensures !g.kind.Aig? ==> t == TwoFanins(0, 0)
  {
    match g.kind
    case Aig(f1, f2) => TwoFanins(Lit(f1), Lit(f2))
    case _ => TwoFanins(0, 0)
  }

  /** Two AND gates have `==` keys exactly when they read the same two references, in either order. */
  lemma GetFaninsEqual(a: Gate, b: Gate)
    requires a.kind.Aig? && b.kind.Aig?
    ensures Equal(GetFanins(a), GetFanins(b)) <==>
      (a.kind.fanin1 == b.kind.fanin1 && a.kind.fanin2 == b.kind.fanin2) ||
      (a.kind.fanin1 == b.kind.fanin2 && a.kind.fanin2 == b.kind.fanin1)
  {
    EqualIff(GetFanins(a), GetFanins(b));
    LitInjective(a.kind.fanin1, b.kind.fanin1);
    LitInjective(a.kind.fanin2, b.kind.fanin2);
    LitInjective(a.kind.fanin1, b.kind.fanin2);
    LitInjective(a.kind.fanin2, b.kind.fanin1);
  }

  /** `definedNotUsed`: overridden only by AND gates and PIs, which answer whether no gate reads them. */
  predicate DefinedNotUsed(g: Gate)
  {
    match g.kind
    case Aig(_, _) => |g.fanouts| == 0
    case Pi => |g.fanouts| == 0
    case _ => false
  }

  /** Only an AND gate or a PI with an empty fanout list is reported as defined but not used. */
  lemma DefinedNotUsedIff(g: Gate)
    ensures DefinedNotUsed(g) <==> (g.kind.Aig? || g.kind.Pi?) && g.fanouts == []
  {
  }

  /**
   * `setFanout(c, inv)`: a PO has no fanouts and refuses; every other gate appends one entry at the
   * end of its fanout list and keeps the earlier entries.
   */
  function SetFanout(g: Gate, c: Ref): (res: (bool, Gate))
    ensures res.0 <==> !g.kind.Po?
    ensures res.1.id == g.id && res.1.kind == g.kind && res.1.name == g.name && res.1.lineNo == g.lineNo
    ensures !res.0 ==> res.1 == g
    ensures res.0 ==> |res.1.fanouts| == |g.fanouts| + 1 && res.1.fanouts[..|g.fanouts|] == g.fanouts && res.1.fanouts[|g.fanouts|] == c
  {
    if g.kind.Po? then (false, g) else (true, g.(fanouts := g.fanouts + [c]))
  }

  /**
   * `setFanin(r, num)`: PIs, UNDEF gates and the constant refuse; a PO overwrites its fanin whatever
   * num is; an AND gate overwrites slot 1 or 2 and refuses any other slot number.
   */
  function SetFanin(g: Gate, r: Ref, num: int): (res: (bool, Gate))
    ensures res.1.id == g.id && res.1.fanouts == g.fanouts && res.1.name == g.name && res.1.lineNo == g.lineNo
    ensures res.0 <==> g.kind.Po? || (g.kind.Aig? && (num == 1 || num == 2))
    ensures !res.0 ==> res.1 == g
    ensures g.kind.Po? ==> res.1.kind == Po(r)
    ensures g.kind.Aig? && num == 1 ==> res.1.kind == Aig(r, g.kind.fanin2)
    ensures g.kind.Aig? && num == 2 ==> res.1.kind == Aig(g.kind.fanin1, r)
  {
    match g.kind
    case Po(_) => (true, g.(kind := Po(r)))
    case Aig(f1, f2) =>
      if num == 1 then (true, g.(kind := Aig(r, f2)))
      else if num == 2 then (true, g.(kind := Aig(f1, r)))
      else (false, g)
    case _ => (false, g)
  }

  /** One slot of `newFanin`: a slot reading gate o now reads n, its polarity flipped when i is set. */
  function Redirect(f: Ref, o: nat, n: nat, i: bool): (f': Ref)
    ensures f.id == o ==> f' == Ref(n, i != f.inv)
    ensures f.id != o ==> f' == f
  {
    if f.id == o then Ref(n, i != f.inv) else f
  }

  /**
   * `newFanin(o, n, i)`: an AND gate redirects each slot that reads o; a PO redirects its only fanin
   * without looking at o; the other kinds do nothing. The source asserts that an AND gate reads o;
   * as in a build without assertions, a gate that no longer reads o is left as it is.
   */
  function NewFanin(g: Gate, o: nat, n: nat, i: bool): (g': Gate)
    ensures g'.id == g.id && g'.fanouts == g.fanouts && g'.name == g.name && g'.lineNo == g.lineNo
    ensures g.kind.Aig? ==> g'.kind == Aig(Redirect(g.kind.fanin1, o, n, i), Redirect(g.kind.fanin2, o, n, i))
    ensures g.kind.Po? ==> g'.kind == Po(Ref(n, i != g.kind.fanin.inv))
    ensures !g.kind.Aig? && !g.kind.Po? ==> g' == g
  {
    match g.kind
    case Aig(f1, f2) => g.(kind := Aig(Redirect(f1, o, n, i), Redirect(f2, o, n, i)))
    case Po(f) => SetFanin(g, Ref(n, i != f.inv), 0).1
    case _ => g
  }

  /** The fanout list without the entries whose consumer is t, the rest in their order. */
  function Without(fs: seq<Ref>, t: nat): (r: seq<Ref>)
    ensures |r| <= |fs|
  {
    if fs == [] then [] else (if fs[0].id == t then [] else [fs[0]]) + Without(fs[1..], t)
  }

  /** Removal drops exactly the entries of consumer t, with their multiplicity, and keeps the others. */
  lemma {:induction false} WithoutCounts(fs: seq<Ref>, t: nat)
    ensures forall e :: multiset(Without(fs, t))[e] == if e.id == t then 0 else multiset(fs)[e]
    ensures forall e :: e in Without(fs, t) <==> e in fs && e.id != t
  {
    if fs != [] {
      WithoutCounts(fs[1..], t);
      assert fs == [fs[0]] + fs[1..];
    }
  }

  /** `removeFanout(t)`: walk the fanout list and erase every entry whose consumer is t. */
  method RemoveFanout(g: Gate, t: nat) returns (g': Gate)
    ensures g' == g.(fanouts := Without(g.fanouts, t))
  {
    var kept: seq<Ref> := [];
    var k := 0;
    while k < |g.fanouts|
      invariant k <= |g.fanouts|
      invariant kept + Without(g.fanouts[k..], t) == Without(g.fanouts, t)
    {
      assert g.fanouts[k..] == [g.fanouts[k]] + g.fanouts[k + 1..];
      if g.fanouts[k].id != t {
        kept := kept + [g.fanouts[k]];
      }
      k := k + 1;
    }
    g' := g.(fanouts := kept);
  }

  /** `compareByID`: order references by the id of the gate they point at. */
  function RefId(r: Ref): nat
  {
    r.id
  }

  /** `sortFanouts`: the fanout list permuted into nondecreasing consumer-id order. */
  function SortFanouts(g: Gate): (g': Gate)
    ensures g'.id == g.id && g'.kind == g.kind && g'.name == g.name && g'.lineNo == g.lineNo
    ensures SortedBy(g'.fanouts, RefId)
    ensures multiset(g'.fanouts) == multiset(g.fanouts)
  {
    g.(fanouts := SortBy(g.fanouts, RefId))
  }
}
