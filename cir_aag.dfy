/**
 * The contents of an AIGER ASCII (`aag`) file as the reader takes it in and the writer puts it out:
 * the header numbers, the input and output literals, the AND definitions and the symbol table,
 * the text the writer renders them as, and the conditions under which the reader accepts them.
 */
module CirAag {
  import opened CirDef

  /** An AND line: the defined literal and its two input literals. */
  datatype AndDef = AndDef(lhs: nat, rhs0: nat, rhs1: nat)

  /** A symbol line `i<index> <name>` (input) or `o<index> <name>` (output). */
  datatype Symbol = Symbol(input: bool, index: nat, name: seq<byte>)

  /**
   * A file: header `aag m i l o a`, then the input literals, the output literals, the AND lines and
   * the symbol lines in file order.
   */
  datatype Aag = Aag(m: nat, i: nat, l: nat, o: nat, a: nat,
                     inputs: seq<nat>, outputs: seq<nat>, ands: seq<AndDef>, symbols: seq<Symbol>)

  const SPACE: byte := 32

  /** The identifier that opens the header. */
  const AAG: seq<byte> := ['a' as byte, 'a' as byte, 'g' as byte]

  predicate IsDigit(c: byte)
  {
    '0' as byte <= c <= '9' as byte
  }

  /** `isprint` in the C locale. */
  predicate IsPrint(c: byte)
  {
    32 <= c <= 126
  }

  /** A token `myStr2Int` turns into a natural: one or more decimal digits. */
  predicate IsNumber(s: seq<byte>)
  {
    |s| > 0 && forall k :: 0 <= k < |s| ==> IsDigit(s[k])
  }

  /** The value of a string of decimal digits, most significant first. */
  function Value(s: seq<byte>): (n: nat)
    requires forall k :: 0 <= k < |s| ==> IsDigit(s[k])
    ensures |s| == 1 ==> n == s[0] as int - '0' as int
  {
    if s == [] then 0
    else
      assert IsDigit(s[|s| - 1]);
      10 * Value(s[..|s| - 1]) + (s[|s| - 1] as int - '0' as int)
  }

  /** The digits `operator<<` writes for an unsigned number: read back, they give the number. */
  function Decimal(n: nat): (s: seq<byte>)
    ensures IsNumber(s) && Value(s) == n
    decreases n
  {
    if n < 10 then [(n + '0' as int) as byte]
    else
      var s := Decimal(n / 10) + [(n % 10 + '0' as int) as byte];
      assert s[..|s| - 1] == Decimal(n / 10);
      s
  }

  /** Each number after a single space: the tail of the header line. */
  function Spaced(ns: seq<nat>): (s: seq<byte>)
    ensures ns == [] <==> s == []
    ensures s != [] ==> s[0] == SPACE
  {
    if ns == [] then [] else [SPACE] + (Decimal(ns[0]) + Spaced(ns[1..]))
  }

  function HeaderText(f: Aag): seq<byte>
  {
    AAG + Spaced([f.m, f.i, f.l, f.o, f.a])
  }

  function AndText(d: AndDef): seq<byte>
  {
    Decimal(d.lhs) + [SPACE] + Decimal(d.rhs0) + [SPACE] + Decimal(d.rhs1)
  }

  function SymbolText(s: Symbol): seq<byte>
  {
    [if s.input then 'i' as byte else 'o' as byte] + Decimal(s.index) + [SPACE] + s.name
  }

  /** One line per number. */
  function NumberTexts(lits: seq<nat>): (lines: seq<seq<byte>>)
    ensures |lines| == |lits| && forall k :: 0 <= k < |lits| ==> lines[k] == Decimal(lits[k])
  {
    seq(|lits|, k requires 0 <= k < |lits| => Decimal(lits[k]))
  }

  function AndTexts(ands: seq<AndDef>): (lines: seq<seq<byte>>)
    ensures |lines| == |ands| && forall k :: 0 <= k < |ands| ==> lines[k] == AndText(ands[k])
  {
    seq(|ands|, k requires 0 <= k < |ands| => AndText(ands[k]))
  }

  function SymbolTexts(syms: seq<Symbol>): (lines: seq<seq<byte>>)
    ensures |lines| == |syms| && forall k :: 0 <= k < |syms| ==> lines[k] == SymbolText(syms[k])
  {
    seq(|syms|, k requires 0 <= k < |syms| => SymbolText(syms[k]))
  }

  /**
   * The lines `writeAag` writes for a file record, without their newline characters: the header,
   * one number per input and output, the AND lines, the symbol lines and the closing `c`.
   */
  function Text(f: Aag): (lines: seq<seq<byte>>)
    ensures |lines| == 2 + |f.inputs| + |f.outputs| + |f.ands| + |f.symbols|
    ensures lines[0] == HeaderText(f) && lines[|lines| - 1] == ['c' as byte]
  {
    [HeaderText(f)]
    + (NumberTexts(f.inputs) + (NumberTexts(f.outputs) + (AndTexts(f.ands) + (SymbolTexts(f.symbols) + [['c' as byte]]))))
  }

  /** A literal that may define a gate: not the constant, not inverted, with an id up to m. */
  predicate Definable(lit: nat, m: nat)
  {
    lit >= 2 && lit % 2 == 0 && lit / 2 <= m
  }

  /** The gate ids of a list of literals. */
  function IdsOf(lits: seq<nat>): (s: set<nat>)
    ensures forall k :: 0 <= k < |lits| ==> lits[k] / 2 in s
    ensures forall j :: j in s ==> exists k :: 0 <= k < |lits| && lits[k] / 2 == j
  {
    set k | 0 <= k < |lits| :: lits[k] / 2
  }

  /** The defined literals of the AND lines. */
  function Lhs(ands: seq<AndDef>): (lits: seq<nat>)
    ensures |lits| == |ands| && forall k :: 0 <= k < |ands| ==> lits[k] == ands[k].lhs
  {
    seq(|ands|, k requires 0 <= k < |ands| => ands[k].lhs)
  }

  /** No two literals of the list define the same gate. */
  predicate DistinctIds(lits: seq<nat>)
  {
    forall j, k :: 0 <= j < k < |lits| ==> lits[j] / 2 != lits[k] / 2
  }

  /** A symbol line the reader accepts: a pin that exists, and a non-empty printable name. */
  predicate SymbolOk(s: Symbol, i: nat, o: nat)
  {
    && s.index < (if s.input then i else o)
    && s.name != [] && forall k :: 0 <= k < |s.name| ==> IsPrint(s.name[k])
  }

  /**
   * A record the reader accepts: no latches, at least I + A variables, the counts the header
   * announces, inputs and AND outputs that are even, not the constant, within M and pairwise
   * different gates, every other literal within M, and each pin named at most once.
   */
  predicate WellFormed(f: Aag)
  {
    && f.l == 0 && f.i + f.a <= f.m
    && |f.inputs| == f.i && |f.outputs| == f.o && |f.ands| == f.a
    && (forall k :: 0 <= k < f.i ==> Definable(f.inputs[k], f.m))
    && (forall k :: 0 <= k < f.o ==> f.outputs[k] / 2 <= f.m)
    && (forall k :: 0 <= k < f.a ==>
          Definable(f.ands[k].lhs, f.m) && f.ands[k].rhs0 / 2 <= f.m && f.ands[k].rhs1 / 2 <= f.m)
    && DistinctIds(f.inputs + Lhs(f.ands))
    && (forall k :: 0 <= k < |f.symbols| ==> SymbolOk(f.symbols[k], f.i, f.o))
    && (forall j, k :: 0 <= j < k < |f.symbols| ==>
          (f.symbols[j].input, f.symbols[j].index) != (f.symbols[k].input, f.symbols[k].index))
  }
}
