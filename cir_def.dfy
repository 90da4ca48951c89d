/**
 * Basic definitions of the circuit package: the gate type enumeration and the `TwoFanins` key
 * that structural hashing uses to recognise AND gates with the same inputs.
 */
module CirDef {
  import opened Buckets

  /** A character of the circuit file; names and lines are byte strings. */
  newtype byte = b: int | 0 <= b < 256

  /** `GateType`, with the enumeration values of the source. */
  datatype GateType = UndefGate | PiGate | PoGate | AigGate | ConstGate
  {
    function Code(): (c: nat)
      ensures c < 5
    {
      match this
      case UndefGate => 0
      case PiGate => 1
      case PoGate => 2
      case AigGate => 3
      case ConstGate => 4
    }
  }

  /** Distinct gate types have distinct enumeration values. */
  lemma CodeInjective(s: GateType, t: GateType)
    ensures s.Code() == t.Code() <==> s == t
  {
  }

  /**
   * The fanin pair of an AND gate as two literals (twice the gate's id, plus one when the
   * fanin is inverted); two pairs are `==` when they hold the same literals in either order.
   */
  datatype TwoFanins = TwoFanins(fanin1: nat, fanin2: nat)

  /** `TwoFanins::operator==`: compare gate (`/ 2`) and polarity (`% 2`) in order, then crosswise. */
  predicate Equal(s: TwoFanins, t: TwoFanins)
  {
    || (s.fanin1 / 2 == t.fanin1 / 2 && s.fanin2 / 2 == t.fanin2 / 2 && s.fanin1 % 2 == t.fanin1 % 2 && s.fanin2 % 2 == t.fanin2 % 2)
    || (s.fanin1 / 2 == t.fanin2 / 2 && s.fanin2 / 2 == t.fanin1 / 2 && s.fanin1 % 2 == t.fanin2 % 2 && s.fanin2 % 2 == t.fanin1 % 2)
  }

  /** A literal is fixed by its gate and its polarity. */
  lemma LiteralParts(a: nat, b: nat)
    ensures (a / 2 == b / 2 && a % 2 == b % 2) <==> a == b
  {
  }

  /** `==` holds exactly when both literals match in the same order or in swapped order. */
  lemma {:induction false} EqualIff(s: TwoFanins, t: TwoFanins)
    ensures Equal(s, t) <==> (s.fanin1 == t.fanin1 && s.fanin2 == t.fanin2) || (s.fanin1 == t.fanin2 && s.fanin2 == t.fanin1)
  {
    LiteralParts(s.fanin1, t.fanin1);
    LiteralParts(s.fanin2, t.fanin2);
    LiteralParts(s.fanin1, t.fanin2);
    LiteralParts(s.fanin2, t.fanin1);
  }

  /** The same pair with its fanins swapped is always `==`. */
  lemma EqualSwap(a: nat, b: nat)
    ensures Equal(TwoFanins(a, b), TwoFanins(b, a))
  {
  }

  /** `==` is an equivalence: it is equality of unordered literal pairs. */
  lemma EqualIsEquivalence(s: TwoFanins, t: TwoFanins, u: TwoFanins)
    ensures Equal(s, s)
    ensures Equal(s, t) ==> Equal(t, s)
    ensures Equal(s, t) && Equal(t, u) ==> Equal(s, u)
  {
    EqualIff(s, t);
    EqualIff(t, s);
    EqualIff(t, u);
    EqualIff(s, u);
  }

  /**
   * `TwoFanins::operator()`: each literal is scaled and truncated to a 64-bit word, and the two
   * words are combined with exclusive or.
   */
  function Hash(scale: nat -> bv64, t: TwoFanins): (h: nat)
    ensures h < 0x1_0000_0000_0000_0000
  {
    (scale(t.fanin1) ^ scale(t.fanin2)) as nat
  }

  /**
   * The scaling of the source, exactly: multiply by 37/64 (that is, 0.578125) and keep the low 64
   * bits. The source converts the `size_t` literal to a double first, which rounds literals above
   * 2^53, so for those its value can differ; the hash contracts hold for any scaling.
   */
  function Scale(lit: nat): bv64
  {
    ((lit * 37 / 64) % 0x1_0000_0000_0000_0000) as bv64
  }

  /** Exclusive or is symmetric, so a pair and its swap hash alike, whatever the scaling. */
  lemma HashSwap(scale: nat -> bv64, a: nat, b: nat)
    ensures Hash(scale, TwoFanins(a, b)) == Hash(scale, TwoFanins(b, a))
  {
    assert scale(a) ^ scale(b) == scale(b) ^ scale(a);
  }

  /** `==` pairs hash alike, so `TwoFanins` with any scaling is a valid hash key. */
  lemma KeyContractHolds(scale: nat -> bv64)
    ensures KeyContract(Equal, (t: TwoFanins) => Hash(scale, t))
  {
    forall s, t | Equal(s, t)
      ensures Hash(scale, s) == Hash(scale, t)
    {
      EqualIff(s, t);
      if s.fanin1 != t.fanin1 {
        HashSwap(scale, t.fanin1, t.fanin2);
      }
    }
    forall s, t, u
      ensures Equal(s, s)
      ensures Equal(s, t) ==> Equal(t, s)
      ensures Equal(s, t) && Equal(t, u) ==> Equal(s, u)
    {
      EqualIsEquivalence(s, t, u);
    }
  }
}
