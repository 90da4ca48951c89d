/**
 * The checks `readCircuit` makes on the lines of an `aag` file, before it builds any gate. Each
 * line is read as the zero-filled line buffer holds it: byte k of the line, and 0 past its end.
 * Characters are signed, as `char` is on the usual targets, so a comparison with `' '` sees the
 * bytes from 128 up as negative.
 */
module CirParse {
  import opened Wrappers
  import opened CirDef
  import opened CirAag

  /** `CirParseError`, without the message text. */
  datatype ParseError =
    | ExtraSpace | MissingSpace | IllegalWspace | IllegalNum | IllegalIdentifier
    | IllegalSymbolType | IllegalSymbolName | MissingNum | MissingIdentifier | MissingNewline
    | MissingDef | CannotInverted | MaxLitId | RedefGate | RedefSymbolicName | RedefConst
    | NumTooSmall | NumTooBig

  /** The five numbers of the header. */
  datatype Header = Header(m: nat, i: nat, l: nat, o: nat, a: nat)

  /** Byte k of the line buffer: the line, then zeros. */
  function At(line: seq<byte>, k: nat): (c: byte)
    ensures c != 0 ==> k < |line|
  {
    if k < |line| then line[k] else 0
  }

  /** `isspace` in the C locale. */
  predicate IsSpace(c: byte)
  {
    c == SPACE || 9 <= c <= 13
  }

  /** `c < ' '` on a signed `char`: a control character, or a byte from 128 up. */
  predicate BelowSpace(c: byte)
  {
    c < SPACE || c >= 128
  }

  /**
   * How a token is scanned: up to the end or white space (`!isspace`), up to anything that is not
   * above `' '` as a signed `char`, or up to the end of the line.
   */
  datatype Scan = ToSpace | ToBlank | ToEnd

  predicate Stops(c: byte, scan: Scan)
  {
    match scan
    case ToSpace => c == 0 || IsSpace(c)
    case ToBlank => c <= SPACE || c >= 128
    case ToEnd => c == 0
  }

  /** How many bytes a scan from the start of s passes over before it stops. */
  function TokenLength(s: seq<byte>, scan: Scan): (n: nat)
    ensures n <= |s| && Stops(At(s, n), scan)
    ensures forall k :: 0 <= k < n ==> !Stops(s[k], scan)
  {
    if Stops(At(s, 0), scan) then 0 else 1 + TokenLength(s[1..], scan)
  }

  /** The white space a number may not start with: `isspace`, or `< ' '` where the source compares. */
  predicate BadSpace(c: byte, ws: Scan)
  {
    if ws == ToSpace then IsSpace(c) else BelowSpace(c)
  }

  /**
   * A number field at the start of s: present, not a space, not other white space, then a token,
   * scanned as `scan` says, that is a decimal natural. Gives the value and what follows the token.
   */
  function ReadNumber(s: seq<byte>, ws: Scan, scan: Scan): (r: Result<(nat, seq<byte>), ParseError>)
    ensures r.Success? ==>
      var e := |s| - |r.value.1|;
      && 0 < e && s[e..] == r.value.1 && IsNumber(s[..e]) && r.value.0 == Value(s[..e])
  {
    var c := At(s, 0);
    if c == 0 then Failure(MissingNum)
    else if c == SPACE then Failure(ExtraSpace)
    else if BadSpace(c, ws) then Failure(IllegalWspace)
    else
      var e := TokenLength(s, scan);
      var token := s[..e];
      if !IsNumber(token) then Failure(IllegalNum) else Success((Value(token), s[e..]))
  }

  /**
   * The numbers of the header at the start of s: n times a single space and a number token. Gives
   * the values and what follows the last token.
   */
  function HeaderNumbers(s: seq<byte>, n: nat): (r: Result<(seq<nat>, seq<byte>), ParseError>)
    ensures r.Success? ==> |r.value.0| == n
    decreases n
  {
    if n == 0 then Success(([], s))
    else if At(s, 0) == 0 then Failure(MissingNum)
    else if At(s, 0) != SPACE then Failure(MissingSpace)
    else
      var pe :- ReadNumber(s[1..], ToSpace, ToSpace);
      var rest :- HeaderNumbers(pe.1, n - 1);
      Success(([pe.0] + rest.0, rest.1))
  }

  /**
   * The header line: `aag`, then five numbers each after a single space, then the end of the line;
   * M must be at least I + A and L must be 0.
   */
  function ParseHeader(h: seq<byte>): (r: Result<Header, ParseError>)
    ensures r.Success? ==> r.value.l == 0 && r.value.i + r.value.a <= r.value.m
  {
    var c := At(h, 0);
    if c == 0 then Failure(MissingIdentifier)
    else if c == SPACE then Failure(ExtraSpace)
    else if IsSpace(c) then Failure(IllegalWspace)
    else if c != 'a' as byte || At(h, 1) != 'a' as byte || At(h, 2) != 'g' as byte then Failure(IllegalIdentifier)
    else if IsDigit(At(h, 3)) then Failure(MissingSpace)
    else if h[..TokenLength(h, ToSpace)] != AAG then Failure(IllegalIdentifier)
    else
      var te :- HeaderNumbers(h[3..], 5);
      var ns := te.0;
      var hd := Header(ns[0], ns[1], ns[2], ns[3], ns[4]);
      if At(te.1, 0) != 0 then Failure(MissingNewline)
      else if hd.m < hd.i + hd.a then Failure(NumTooSmall)
      else if hd.l != 0 then Failure(IllegalNum)
      else Success(hd)
  }

  /**
   * An input line: a literal that is not the constant, not inverted, within M and not a gate
   * already defined, then the end of the line.
   */
  function ParseInput(line: seq<byte>, m: nat, defined: set<nat>): (r: Result<nat, ParseError>)
    ensures r.Success? ==> Definable(r.value, m) && r.value / 2 !in defined
  {
    var pe :- ReadNumber(line, ToSpace, ToSpace);
    var lit := pe.0;
    if lit < 2 then Failure(RedefConst)
    else if lit % 2 != 0 then Failure(CannotInverted)
    else if lit / 2 > m then Failure(MaxLitId)
    else if lit / 2 in defined then Failure(RedefGate)
    else if At(pe.1, 0) != 0 then Failure(MissingNewline)
    else Success(lit)
  }

  /** An output line: a literal within M, then the end of the line. */
  function ParseOutput(line: seq<byte>, m: nat): (r: Result<nat, ParseError>)
    ensures r.Success? ==> r.value / 2 <= m
  {
    var pe :- ReadNumber(line, ToSpace, ToSpace);
    if pe.0 / 2 > m then Failure(MaxLitId)
    else if At(pe.1, 0) != 0 then Failure(MissingNewline)
    else Success(pe.0)
  }

  /**
   * An AND line: a defining literal checked as an input's, then two input literals within M, each
   * after a single separating byte above `' '`, then the end of the line.
   */
  function ParseAnd(line: seq<byte>, m: nat, defined: set<nat>): (r: Result<AndDef, ParseError>)
    ensures r.Success? ==>
      Definable(r.value.lhs, m) && r.value.lhs / 2 !in defined && r.value.rhs0 / 2 <= m && r.value.rhs1 / 2 <= m
  {
    var pe :- ReadNumber(line, ToSpace, ToSpace);
    var lhs := pe.0;
    if lhs < 2 then Failure(RedefConst)
    else if lhs % 2 != 0 then Failure(CannotInverted)
    else if lhs / 2 > m then Failure(MaxLitId)
    else if lhs / 2 in defined then Failure(RedefGate)
    else if BelowSpace(At(pe.1, 0)) then Failure(MissingSpace)
    else AndInputs(pe.1[1..], m, lhs)
  }

  /** The two input literals of an AND line, from the start of s. */
  function AndInputs(s: seq<byte>, m: nat, lhs: nat): (r: Result<AndDef, ParseError>)
    ensures r.Success? ==> r.value.lhs == lhs && r.value.rhs0 / 2 <= m && r.value.rhs1 / 2 <= m
  {
    var p0 :- ReadNumber(s, ToSpace, ToSpace);
    if p0.0 / 2 > m then Failure(MaxLitId)
    else if BelowSpace(At(p0.1, 0)) then Failure(MissingSpace)
    else AndLast(p0.1[1..], m, lhs, p0.0)
  }

  /** The last literal of an AND line, scanned up to the first byte that is not above `' '`. */
  function AndLast(s: seq<byte>, m: nat, lhs: nat, rhs0: nat): (r: Result<AndDef, ParseError>)
    ensures r.Success? ==> r.value.lhs == lhs && r.value.rhs0 == rhs0 && r.value.rhs1 / 2 <= m
  {
    var p1 :- ReadNumber(s, ToBlank, ToBlank);
    if p1.0 / 2 > m then Failure(MaxLitId)
    else if At(p1.1, 0) != 0 then Failure(MissingNewline)
    else Success(AndDef(lhs, rhs0, p1.0))
  }

  /**
   * A symbol line: `i` or `o`, a pin index below the number of pins of that kind whose pin has no
   * name yet, a single separating byte above `' '` and a non-empty name of printable characters
   * up to the end of the line.
   */
  function ParseSymbol(line: seq<byte>, i: nat, o: nat, named: set<(bool, nat)>): (r: Result<Symbol, ParseError>)
    ensures r.Success? ==> SymbolOk(r.value, i, o) && (r.value.input, r.value.index) !in named
  {
    var c := At(line, 0);
    if c == SPACE then Failure(ExtraSpace)
    else if IsSpace(c) then Failure(IllegalWspace)
    else if c != 'i' as byte && c != 'o' as byte then Failure(IllegalSymbolType)
    else
      var input := c == 'i' as byte;
      var pe :- ReadNumber(line[1..], ToSpace, ToBlank);
      var pin, rest := pe.0, pe.1;
      if pin >= (if input then i else o) then Failure(NumTooBig)
      else if (input, pin) in named then Failure(RedefSymbolicName)
      else if At(rest, 0) == 0 then Failure(MissingIdentifier)
      else if BelowSpace(At(rest, 0)) then Failure(MissingSpace)
      else
        var name := rest[1..][..TokenLength(rest[1..], ToEnd)];
        if exists k :: 0 <= k < |name| && !IsPrint(name[k]) then Failure(IllegalSymbolName)
        else if name == [] then Failure(MissingIdentifier)
        else Success(Symbol(input, pin, name))
  }

  /** The next n lines as input lines; a missing line is a missing definition. */
  function ParseInputs(lines: seq<seq<byte>>, n: nat, m: nat, defined: set<nat>): (r: Result<seq<nat>, ParseError>)
    ensures r.Success? ==>
      && |r.value| == n && n <= |lines| && DistinctIds(r.value)
      && forall k :: 0 <= k < n ==> Definable(r.value[k], m) && r.value[k] / 2 !in defined
    decreases n
  {
    if n == 0 then Success([])
    else if lines == [] then Failure(MissingDef)
    else
      var lit :- ParseInput(lines[0], m, defined);
      var rest :- ParseInputs(lines[1..], n - 1, m, defined + {lit / 2});
      Success([lit] + rest)
  }

  function ParseOutputs(lines: seq<seq<byte>>, n: nat, m: nat): (r: Result<seq<nat>, ParseError>)
    ensures r.Success? ==> |r.value| == n && n <= |lines| && forall k :: 0 <= k < n ==> r.value[k] / 2 <= m
    decreases n
  {
    if n == 0 then Success([])
    else if lines == [] then Failure(MissingDef)
    else
      var lit :- ParseOutput(lines[0], m);
      var rest :- ParseOutputs(lines[1..], n - 1, m);
      Success([lit] + rest)
  }

  function ParseAnds(lines: seq<seq<byte>>, n: nat, m: nat, defined: set<nat>): (r: Result<seq<AndDef>, ParseError>)
    ensures r.Success? ==>
      && |r.value| == n && n <= |lines|
      && (forall j, k :: 0 <= j < k < n ==> r.value[j].lhs / 2 != r.value[k].lhs / 2)
      && forall k :: 0 <= k < n ==>
           && Definable(r.value[k].lhs, m) && r.value[k].lhs / 2 !in defined
           && r.value[k].rhs0 / 2 <= m && r.value[k].rhs1 / 2 <= m
    decreases n
  {
    if n == 0 then Success([])
    else if lines == [] then Failure(MissingDef)
    else
      var d :- ParseAnd(lines[0], m, defined);
      var rest :- ParseAnds(lines[1..], n - 1, m, defined + {d.lhs / 2});
      var ands := [d] + rest;
      assert ands[0] == d && forall k :: 0 < k < |ands| ==> ands[k] == rest[k - 1];
      Success(ands)
  }

  /**
   * The remaining lines as symbol lines, up to the end of the file or to a line starting with `c`,
   * which must be `c` alone.
   */
  function ParseSymbols(lines: seq<seq<byte>>, i: nat, o: nat, named: set<(bool, nat)>): (r: Result<seq<Symbol>, ParseError>)
    ensures r.Success? ==>
      && (forall k :: 0 <= k < |r.value| ==> SymbolOk(r.value[k], i, o) && (r.value[k].input, r.value[k].index) !in named)
      && (forall j, k :: 0 <= j < k < |r.value| ==>
            (r.value[j].input, r.value[j].index) != (r.value[k].input, r.value[k].index))
  {
    if lines == [] then Success([])
    else if At(lines[0], 0) == 'c' as byte then
      if At(lines[0], 1) != 0 then Failure(MissingNewline) else Success([])
    else
      var s :- ParseSymbol(lines[0], i, o, named);
      var rest :- ParseSymbols(lines[1..], i, o, named + {(s.input, s.index)});
      Success([s] + rest)
  }

  /**
   * `readCircuit` up to the building of gates: the header, I input lines, O output lines, A AND
   * lines (AND gates may not redefine an input), then the symbol table. The first error wins, and
   * what is accepted is well formed: every check of a line shows up in the record.
   */
  function Parse(lines: seq<seq<byte>>): (r: Result<Aag, ParseError>)
    ensures r.Success? ==> WellFormed(r.value)
  {
    if lines == [] then Failure(MissingIdentifier)
    else
      var hd :- ParseHeader(lines[0]);
      var ins :- ParseInputs(lines[1..], hd.i, hd.m, {});
      var outs :- ParseOutputs(lines[1..][hd.i..], hd.o, hd.m);
      var ands :- ParseAnds(lines[1..][hd.i..][hd.o..], hd.a, hd.m, IdsOf(ins));
      var syms :- ParseSymbols(lines[1..][hd.i..][hd.o..][hd.a..], hd.i, hd.o, {});
      DistinctDefinitions(ins, ands);
      Success(Aag(hd.m, hd.i, hd.l, hd.o, hd.a, ins, outs, ands, syms))
  }

  /** Inputs that are pairwise different gates, and AND gates that are neither each other nor an input. */
  lemma DistinctDefinitions(ins: seq<nat>, ands: seq<AndDef>)
    requires DistinctIds(ins)
    requires forall j, k :: 0 <= j < k < |ands| ==> ands[j].lhs / 2 != ands[k].lhs / 2
    requires forall k :: 0 <= k < |ands| ==> ands[k].lhs / 2 !in IdsOf(ins)
    ensures DistinctIds(ins + Lhs(ands))
  {
    var d := ins + Lhs(ands);
    forall j, k | 0 <= j < k < |d|
      ensures d[j] / 2 != d[k] / 2
    {
      if k >= |ins| && j < |ins| {
        assert d[j] / 2 in IdsOf(ins);
      }
    }
  }

  /** A scan over a token of bytes it does not stop at, followed by one it stops at, passes the token. */
  lemma {:induction false} TokenLengthAt(t: seq<byte>, post: seq<byte>, scan: Scan)
    requires forall k :: 0 <= k < |t| ==> !Stops(t[k], scan)
    requires Stops(At(post, 0), scan)
    ensures TokenLength(t + post, scan) == |t|
  {
    if t != [] {
      assert (t + post)[1..] == t[1..] + post;
      TokenLengthAt(t[1..], post, scan);
    } else {
      assert t + post == post;
    }
  }

  /** A number token followed by a byte the scan stops at, or by nothing, is read with its value. */
  lemma ReadNumberAt(t: seq<byte>, post: seq<byte>, ws: Scan, scan: Scan)
    requires scan != ToEnd && IsNumber(t) && Stops(At(post, 0), scan)
    ensures ReadNumber(t + post, ws, scan) == Success((Value(t), post))
  {
    TokenLengthAt(t, post, scan);
    assert (t + post)[..|t|] == t && (t + post)[|t|..] == post;
  }

  /** The line of a definable literal is accepted as an input line. */
  lemma InputText(lit: nat, m: nat, defined: set<nat>)
    requires Definable(lit, m) && lit / 2 !in defined
    ensures ParseInput(Decimal(lit), m, defined) == Success(lit)
  {
    ReadNumberAt(Decimal(lit), [], ToSpace, ToSpace);
    assert Decimal(lit) + [] == Decimal(lit);
  }

  /** The line of a literal within M is accepted as an output line. */
  lemma OutputText(lit: nat, m: nat)
    requires lit / 2 <= m
    ensures ParseOutput(Decimal(lit), m) == Success(lit)
  {
    ReadNumberAt(Decimal(lit), [], ToSpace, ToSpace);
    assert Decimal(lit) + [] == Decimal(lit);
  }

  /** Two number tokens with a single space between them are read as the inputs of an AND line. */
  lemma AndInputsRead(y: seq<byte>, z: seq<byte>, m: nat, lhs: nat)
    requires IsNumber(y) && IsNumber(z) && Value(y) / 2 <= m && Value(z) / 2 <= m
    ensures AndInputs(y + ([SPACE] + z), m, lhs) == Success(AndDef(lhs, Value(y), Value(z)))
  {
    ReadNumberAt(z, [], ToBlank, ToBlank);
    assert z + [] == z;
    ReadNumberAt(y, [SPACE] + z, ToSpace, ToSpace);
    assert ([SPACE] + z)[1..] == z;
  }

  /** Three number tokens with single spaces between them are read as an AND line. */
  lemma AndLineRead(x: seq<byte>, y: seq<byte>, z: seq<byte>, m: nat, defined: set<nat>)
    requires IsNumber(x) && IsNumber(y) && IsNumber(z)
    requires Definable(Value(x), m) && Value(x) / 2 !in defined && Value(y) / 2 <= m && Value(z) / 2 <= m
    ensures ParseAnd(x + ([SPACE] + (y + ([SPACE] + z))), m, defined) == Success(AndDef(Value(x), Value(y), Value(z)))
  {
    AndInputsRead(y, z, m, Value(x));
    ReadNumberAt(x, [SPACE] + (y + ([SPACE] + z)), ToSpace, ToSpace);
    assert ([SPACE] + (y + ([SPACE] + z)))[1..] == y + ([SPACE] + z);
  }

  /** The line the writer puts out for an AND gate the reader would accept is read back. */
  lemma AndTextRead(d: AndDef, m: nat, defined: set<nat>)
    requires Definable(d.lhs, m) && d.lhs / 2 !in defined && d.rhs0 / 2 <= m && d.rhs1 / 2 <= m
    ensures ParseAnd(AndText(d), m, defined) == Success(d)
  {
    var x, y, z := Decimal(d.lhs), Decimal(d.rhs0), Decimal(d.rhs1);
    assert AndText(d) == x + ([SPACE] + (y + ([SPACE] + z)));
    AndLineRead(x, y, z, m, defined);
  }

  /** A pin letter, a number token, a single space and a printable name are read as a symbol line. */
  lemma SymbolLineRead(c: byte, x: seq<byte>, name: seq<byte>, i: nat, o: nat, named: set<(bool, nat)>)
    requires c == 'i' as byte || c == 'o' as byte
    requires IsNumber(x) && SymbolOk(Symbol(c == 'i' as byte, Value(x), name), i, o)
    requires (c == 'i' as byte, Value(x)) !in named
    ensures ParseSymbol([c] + (x + ([SPACE] + name)), i, o, named) == Success(Symbol(c == 'i' as byte, Value(x), name))
  {
    assert ([c] + (x + ([SPACE] + name)))[1..] == x + ([SPACE] + name);
    ReadNumberAt(x, [SPACE] + name, ToSpace, ToBlank);
    assert ([SPACE] + name)[1..] == name;
    TokenLengthAt(name, [], ToEnd);
    assert name + [] == name && name[..|name|] == name;
  }

  /** The line the writer puts out for a symbol the reader would accept is read back. */
  lemma SymbolTextRead(s: Symbol, i: nat, o: nat, named: set<(bool, nat)>)
    requires SymbolOk(s, i, o) && (s.input, s.index) !in named
    ensures ParseSymbol(SymbolText(s), i, o, named) == Success(s)
  {
    var c := if s.input then 'i' as byte else 'o' as byte;
    assert SymbolText(s) == [c] + (Decimal(s.index) + ([SPACE] + s.name));
    SymbolLineRead(c, Decimal(s.index), s.name, i, o, named);
  }

  /** A single space, a number token, then the rest of the header: the token is read back. */
  lemma HeaderNumberFirst(s: seq<byte>, t: seq<byte>, rest: seq<byte>, v: nat)
    requires s == [SPACE] + (t + rest) && IsNumber(t) && Value(t) == v
    requires rest == [] || rest[0] == SPACE
    ensures At(s, 0) == SPACE && ReadNumber(s[1..], ToSpace, ToSpace) == Success((v, rest))
  {
    assert s[1..] == t + rest;
    ReadNumberAt(t, rest, ToSpace, ToSpace);
  }

  /** One number of the header read, then the others. */
  lemma HeaderStep(s: seq<byte>, n: nat, v: nat, rest: seq<byte>, vs: seq<nat>, post: seq<byte>)
    requires n > 0 && At(s, 0) == SPACE && ReadNumber(s[1..], ToSpace, ToSpace) == Success((v, rest))
    requires HeaderNumbers(rest, n - 1) == Success((vs, post))
    ensures HeaderNumbers(s, n) == Success(([v] + vs, post))
  {
  }

  /** A line of numbers, each after a single space, is read back number by number. */
  lemma {:induction false} HeaderNumbersText(ns: seq<nat>, n: nat)
    requires n == |ns|
    ensures HeaderNumbers(Spaced(ns), n) == Success((ns, []))
    decreases n
  {
    if n != 0 {
      var t, post := Decimal(ns[0]), Spaced(ns[1..]);
      HeaderNumberFirst(Spaced(ns), t, post, ns[0]);
      HeaderNumbersText(ns[1..], n - 1);
      HeaderStep(Spaced(ns), n, ns[0], post, ns[1..], []);
      assert [ns[0]] + ns[1..] == ns;
    }
  }

  /** The header line of a record with no latches and at least I + A variables is read back. */
  lemma HeaderTextRead(f: Aag)
    requires f.l == 0 && f.i + f.a <= f.m
    ensures ParseHeader(HeaderText(f)) == Success(Header(f.m, f.i, f.l, f.o, f.a))
  {
    var h := HeaderText(f);
    var ns := [f.m, f.i, f.l, f.o, f.a];
    TokenLengthAt(AAG, Spaced(ns), ToSpace);
    assert h[..3] == AAG && h[3..] == Spaced(ns);
    HeaderNumbersText(ns, 5);
  }

  /** One input line read, then the rest. */
  lemma InputsStep(lines: seq<seq<byte>>, n: nat, m: nat, defined: set<nat>, lit: nat, rest: seq<nat>)
    requires n > 0 && lines != [] && ParseInput(lines[0], m, defined) == Success(lit)
    requires ParseInputs(lines[1..], n - 1, m, defined + {lit / 2}) == Success(rest)
    ensures ParseInputs(lines, n, m, defined) == Success([lit] + rest)
  {
  }

  lemma OutputsStep(lines: seq<seq<byte>>, n: nat, m: nat, lit: nat, rest: seq<nat>)
    requires n > 0 && lines != [] && ParseOutput(lines[0], m) == Success(lit)
    requires ParseOutputs(lines[1..], n - 1, m) == Success(rest)
    ensures ParseOutputs(lines, n, m) == Success([lit] + rest)
  {
  }

  lemma AndsStep(lines: seq<seq<byte>>, n: nat, m: nat, defined: set<nat>, d: AndDef, rest: seq<AndDef>)
    requires n > 0 && lines != [] && ParseAnd(lines[0], m, defined) == Success(d)
    requires ParseAnds(lines[1..], n - 1, m, defined + {d.lhs / 2}) == Success(rest)
    ensures ParseAnds(lines, n, m, defined) == Success([d] + rest)
  {
  }

  lemma SymbolsStep(lines: seq<seq<byte>>, i: nat, o: nat, named: set<(bool, nat)>, s: Symbol, rest: seq<Symbol>)
    requires lines != [] && At(lines[0], 0) != 'c' as byte && ParseSymbol(lines[0], i, o, named) == Success(s)
    requires ParseSymbols(lines[1..], i, o, named + {(s.input, s.index)}) == Success(rest)
    ensures ParseSymbols(lines, i, o, named) == Success([s] + rest)
  {
  }

  /** A line read as an input literal with no gate defined is read the same while its gate is still undefined. */
  lemma InputDefined(line: seq<byte>, m: nat, defined: set<nat>, lit: nat)
    requires ParseInput(line, m, {}) == Success(lit) && lit / 2 !in defined
    ensures ParseInput(line, m, defined) == Success(lit)
  {
  }

  /** What the input lines after the first still satisfy, once the first gate is defined. */
  lemma InputsShift(lines: seq<seq<byte>>, lits: seq<nat>, n: nat, m: nat, defined: set<nat>)
    requires n == |lits| <= |lines| && n > 0 && DistinctIds(lits)
    requires forall k :: 0 <= k < n ==> lits[k] / 2 !in defined
    requires forall k :: 0 <= k < n ==> ParseInput(lines[k], m, {}) == Success(lits[k])
    ensures DistinctIds(lits[1..])
    ensures forall k :: 0 <= k < n - 1 ==> lits[1..][k] / 2 !in defined + {lits[0] / 2}
    ensures forall k :: 0 <= k < n - 1 ==> ParseInput(lines[1..][k], m, {}) == Success(lits[1..][k])
  {
    forall k | 0 <= k < n - 1
      ensures ParseInput(lines[1..][k], m, {}) == Success(lits[1..][k])
    {
      assert lines[1..][k] == lines[k + 1];
    }
    forall k | 0 <= k < n - 1
      ensures lits[1..][k] / 2 !in defined + {lits[0] / 2}
    {
      assert lits[0] / 2 != lits[k + 1] / 2;
    }
  }

  /**
   * n lines that each read as one input literal when no gate is defined read as the list of those
   * literals when no two define the same gate and none is defined before.
   */
  lemma {:induction false} InputsLines(lines: seq<seq<byte>>, lits: seq<nat>, n: nat, m: nat, defined: set<nat>)
    requires n == |lits| <= |lines| && DistinctIds(lits)
    requires forall k :: 0 <= k < n ==> lits[k] / 2 !in defined
    requires forall k :: 0 <= k < n ==> ParseInput(lines[k], m, {}) == Success(lits[k])
    ensures ParseInputs(lines, n, m, defined) == Success(lits)
    decreases n
  {
    if n != 0 {
      InputsShift(lines, lits, n, m, defined);
      InputsLines(lines[1..], lits[1..], n - 1, m, defined + {lits[0] / 2});
      InputDefined(lines[0], m, defined, lits[0]);
      assert [lits[0]] + lits[1..] == lits;
      InputsStep(lines, n, m, defined, lits[0], lits[1..]);
    }
  }

  /** The lines written for a list of input literals the reader accepts are read back, whatever follows. */
  lemma InputsRead(lits: seq<nat>, tail: seq<seq<byte>>, m: nat, defined: set<nat>)
    requires DistinctIds(lits)
    requires forall k :: 0 <= k < |lits| ==> Definable(lits[k], m) && lits[k] / 2 !in defined
    ensures ParseInputs(NumberTexts(lits) + tail, |lits|, m, defined) == Success(lits)
  {
    var lines := NumberTexts(lits) + tail;
    forall k | 0 <= k < |lits|
      ensures ParseInput(lines[k], m, {}) == Success(lits[k])
    {
      InputText(lits[k], m, {});
    }
    InputsLines(lines, lits, |lits|, m, defined);
  }

  /** n lines that each read as one output literal read as the list of those literals. */
  lemma {:induction false} OutputsLines(lines: seq<seq<byte>>, lits: seq<nat>, n: nat, m: nat)
    requires n == |lits| <= |lines|
    requires forall k :: 0 <= k < n ==> ParseOutput(lines[k], m) == Success(lits[k])
    ensures ParseOutputs(lines, n, m) == Success(lits)
    decreases n
  {
    if n != 0 {
      var rest := lits[1..];
      assert forall k :: 0 <= k < n - 1 ==> lines[1..][k] == lines[k + 1];
      OutputsLines(lines[1..], rest, n - 1, m);
      OutputsStep(lines, n, m, lits[0], rest);
      assert [lits[0]] + rest == lits;
    }
  }

  /** The lines written for a list of output literals within M are read back, whatever follows. */
  lemma OutputsRead(lits: seq<nat>, tail: seq<seq<byte>>, m: nat)
    requires forall k :: 0 <= k < |lits| ==> lits[k] / 2 <= m
    ensures ParseOutputs(NumberTexts(lits) + tail, |lits|, m) == Success(lits)
  {
    var lines := NumberTexts(lits) + tail;
    forall k | 0 <= k < |lits|
      ensures ParseOutput(lines[k], m) == Success(lits[k])
    {
      OutputText(lits[k], m);
    }
    OutputsLines(lines, lits, |lits|, m);
  }

  /** A line read as an AND definition with no gate defined is read the same while its gate is still undefined. */
  lemma AndDefined(line: seq<byte>, m: nat, defined: set<nat>, d: AndDef)
    requires ParseAnd(line, m, {}) == Success(d) && d.lhs / 2 !in defined
    ensures ParseAnd(line, m, defined) == Success(d)
  {
  }

  /** What the AND lines after the first still satisfy, once the first gate is defined. */
  lemma AndsShift(lines: seq<seq<byte>>, ands: seq<AndDef>, n: nat, m: nat, defined: set<nat>)
    requires n == |ands| <= |lines| && n > 0
    requires forall j, k :: 0 <= j < k < n ==> ands[j].lhs / 2 != ands[k].lhs / 2
    requires forall k :: 0 <= k < n ==> ands[k].lhs / 2 !in defined
    requires forall k :: 0 <= k < n ==> ParseAnd(lines[k], m, {}) == Success(ands[k])
    ensures forall j, k :: 0 <= j < k < n - 1 ==> ands[1..][j].lhs / 2 != ands[1..][k].lhs / 2
    ensures forall k :: 0 <= k < n - 1 ==> ands[1..][k].lhs / 2 !in defined + {ands[0].lhs / 2}
    ensures forall k :: 0 <= k < n - 1 ==> ParseAnd(lines[1..][k], m, {}) == Success(ands[1..][k])
  {
    forall k | 0 <= k < n - 1
      ensures ParseAnd(lines[1..][k], m, {}) == Success(ands[1..][k])
    {
      assert lines[1..][k] == lines[k + 1];
    }
    forall k | 0 <= k < n - 1
      ensures ands[1..][k].lhs / 2 !in defined + {ands[0].lhs / 2}
    {
      assert ands[0].lhs / 2 != ands[k + 1].lhs / 2;
    }
  }

  /**
   * n lines that each read as one AND definition when no gate is defined read as the list of those
   * definitions when no two define the same gate and none is defined before.
   */
  lemma {:induction false} AndsLines(lines: seq<seq<byte>>, ands: seq<AndDef>, n: nat, m: nat, defined: set<nat>)
    requires n == |ands| <= |lines|
    requires forall j, k :: 0 <= j < k < n ==> ands[j].lhs / 2 != ands[k].lhs / 2
    requires forall k :: 0 <= k < n ==> ands[k].lhs / 2 !in defined
    requires forall k :: 0 <= k < n ==> ParseAnd(lines[k], m, {}) == Success(ands[k])
    ensures ParseAnds(lines, n, m, defined) == Success(ands)
    decreases n
  {
    if n != 0 {
      AndsShift(lines, ands, n, m, defined);
      AndsLines(lines[1..], ands[1..], n - 1, m, defined + {ands[0].lhs / 2});
      AndDefined(lines[0], m, defined, ands[0]);
      assert [ands[0]] + ands[1..] == ands;
      AndsStep(lines, n, m, defined, ands[0], ands[1..]);
    }
  }

  /** The lines written for a list of AND definitions the reader accepts are read back, whatever follows. */
  lemma AndsRead(ands: seq<AndDef>, tail: seq<seq<byte>>, m: nat, defined: set<nat>)
    requires forall k :: 0 <= k < |ands| ==>
      Definable(ands[k].lhs, m) && ands[k].lhs / 2 !in defined && ands[k].rhs0 / 2 <= m && ands[k].rhs1 / 2 <= m
    requires forall j, k :: 0 <= j < k < |ands| ==> ands[j].lhs / 2 != ands[k].lhs / 2
    ensures ParseAnds(AndTexts(ands) + tail, |ands|, m, defined) == Success(ands)
  {
    var lines := AndTexts(ands) + tail;
    forall k | 0 <= k < |ands|
      ensures ParseAnd(lines[k], m, {}) == Success(ands[k])
    {
      AndTextRead(ands[k], m, {});
    }
    AndsLines(lines, ands, |ands|, m, defined);
  }

  /** What the symbol lines after the first still satisfy, once the first pin is named. */
  lemma SymbolsShift(lines: seq<seq<byte>>, syms: seq<Symbol>, n: nat, i: nat, o: nat, named: set<(bool, nat)>)
    requires n == |syms| && n > 0 && |lines| == n + 1 && lines[n] == ['c' as byte]
    requires forall j, k :: 0 <= j < k < n ==> (syms[j].input, syms[j].index) != (syms[k].input, syms[k].index)
    requires forall k :: 0 <= k < n ==> (syms[k].input, syms[k].index) !in named
    requires forall k :: 0 <= k < n ==> At(lines[k], 0) != 'c' as byte
    requires forall k, p :: 0 <= k < n && (syms[k].input, syms[k].index) !in p ==>
      ParseSymbol(lines[k], i, o, p) == Success(syms[k])
    ensures var rest, named' := syms[1..], named + {(syms[0].input, syms[0].index)};
      && lines[1..][n - 1] == ['c' as byte]
      && (forall k :: 0 <= k < n - 1 ==> (rest[k].input, rest[k].index) !in named')
      && (forall k :: 0 <= k < n - 1 ==> At(lines[1..][k], 0) != 'c' as byte)
      && (forall k, p :: 0 <= k < n - 1 && (rest[k].input, rest[k].index) !in p ==>
            ParseSymbol(lines[1..][k], i, o, p) == Success(rest[k]))
  {
    var s, rest := syms[0], syms[1..];
    forall k, p | 0 <= k < n - 1 && (rest[k].input, rest[k].index) !in p
      ensures ParseSymbol(lines[1..][k], i, o, p) == Success(rest[k])
    {
      assert lines[1..][k] == lines[k + 1];
    }
    forall k | 0 <= k < n - 1
      ensures (rest[k].input, rest[k].index) !in named + {(s.input, s.index)}
      ensures At(lines[1..][k], 0) != 'c' as byte
    {
      assert (s.input, s.index) != (syms[k + 1].input, syms[k + 1].index);
      assert lines[1..][k] == lines[k + 1];
    }
  }

  /**
   * Lines that each read as one symbol, whichever other pins are named so far, then the line `c`,
   * read as the list of those symbols when no two name the same pin.
   */
  lemma {:induction false} SymbolsLines(lines: seq<seq<byte>>, syms: seq<Symbol>, n: nat, i: nat, o: nat, named: set<(bool, nat)>)
    requires n == |syms| && |lines| == n + 1 && lines[n] == ['c' as byte]
    requires forall j, k :: 0 <= j < k < n ==> (syms[j].input, syms[j].index) != (syms[k].input, syms[k].index)
    requires forall k :: 0 <= k < n ==> (syms[k].input, syms[k].index) !in named
    requires forall k :: 0 <= k < n ==> At(lines[k], 0) != 'c' as byte
    requires forall k, p :: 0 <= k < n && (syms[k].input, syms[k].index) !in p ==>
      ParseSymbol(lines[k], i, o, p) == Success(syms[k])
    ensures ParseSymbols(lines, i, o, named) == Success(syms)
    decreases n
  {
    if n == 0 {
      assert lines == [['c' as byte]];
    } else {
      var s, rest := syms[0], syms[1..];
      SymbolsShift(lines, syms, n, i, o, named);
      SymbolsLines(lines[1..], rest, n - 1, i, o, named + {(s.input, s.index)});
      SymbolsStep(lines, i, o, named, s, rest);
      assert [s] + rest == syms;
    }
  }

  /** The lines written for a symbol table the reader accepts, then the line `c`, are read back. */
  lemma SymbolsRead(syms: seq<Symbol>, i: nat, o: nat, named: set<(bool, nat)>)
    requires forall k :: 0 <= k < |syms| ==> SymbolOk(syms[k], i, o) && (syms[k].input, syms[k].index) !in named
    requires forall j, k :: 0 <= j < k < |syms| ==> (syms[j].input, syms[j].index) != (syms[k].input, syms[k].index)
    ensures ParseSymbols(SymbolTexts(syms) + [['c' as byte]], i, o, named) == Success(syms)
  {
    var lines := SymbolTexts(syms) + [['c' as byte]];
    forall k, p | 0 <= k < |syms| && (syms[k].input, syms[k].index) !in p
      ensures ParseSymbol(lines[k], i, o, p) == Success(syms[k])
    {
      SymbolTextRead(syms[k], i, o, p);
    }
    assert forall k :: 0 <= k < |syms| ==> At(lines[k], 0) != 'c' as byte;
    SymbolsLines(lines, syms, |syms|, i, o, named);
  }

  /** What follows a prefix of lines. */
  lemma DropPrefix(a: seq<seq<byte>>, b: seq<seq<byte>>)
    ensures (a + b)[|a|..] == b
  {
  }

  /** Where each part of a record lands among the lines the writer puts out. */
  lemma TextParts(f: Aag)
    ensures var lines, i, o, a := Text(f), |f.inputs|, |f.outputs|, |f.ands|;
      var tail3 := SymbolTexts(f.symbols) + [['c' as byte]];
      var tail2 := AndTexts(f.ands) + tail3;
      var tail1 := NumberTexts(f.outputs) + tail2;
      && lines[0] == HeaderText(f)
      && lines[1..] == NumberTexts(f.inputs) + tail1
      && lines[1..][i..] == tail1
      && lines[1..][i..][o..] == tail2
      && lines[1..][i..][o..][a..] == tail3
  {
    var tail3 := SymbolTexts(f.symbols) + [['c' as byte]];
    var tail2 := AndTexts(f.ands) + tail3;
    var tail1 := NumberTexts(f.outputs) + tail2;
    var tail0 := NumberTexts(f.inputs) + tail1;
    assert Text(f)[1..] == tail0;
    DropPrefix(NumberTexts(f.inputs), tail1);
    DropPrefix(NumberTexts(f.outputs), tail2);
    DropPrefix(AndTexts(f.ands), tail3);
  }

  /** The inputs and the AND outputs of a well-formed record are different gates. */
  lemma DistinctParts(f: Aag)
    requires WellFormed(f)
    ensures DistinctIds(f.inputs)
    ensures forall j, k :: 0 <= j < k < |f.ands| ==> f.ands[j].lhs / 2 != f.ands[k].lhs / 2
    ensures forall k :: 0 <= k < |f.ands| ==> f.ands[k].lhs / 2 !in IdsOf(f.inputs)
  {
    var d := f.inputs + Lhs(f.ands);
    var i := |f.inputs|;
    forall j, k | 0 <= j < k < i
      ensures f.inputs[j] / 2 != f.inputs[k] / 2
    {
      assert d[j] == f.inputs[j] && d[k] == f.inputs[k];
    }
    forall j, k | 0 <= j < k < |f.ands|
      ensures f.ands[j].lhs / 2 != f.ands[k].lhs / 2
    {
      assert d[i + j] == f.ands[j].lhs && d[i + k] == f.ands[k].lhs;
    }
    forall k | 0 <= k < |f.ands|
      ensures f.ands[k].lhs / 2 !in IdsOf(f.inputs)
    {
      forall j | 0 <= j < i
        ensures f.inputs[j] / 2 != f.ands[k].lhs / 2
      {
        assert d[j] == f.inputs[j] && d[i + k] == f.ands[k].lhs;
      }
    }
  }

  /** Lines whose parts each read as the parts of a record read as that record. */
  lemma PartsRead(lines: seq<seq<byte>>, f: Aag)
    requires 1 + f.i + f.o + f.a <= |lines|
    requires ParseHeader(lines[0]) == Success(Header(f.m, f.i, f.l, f.o, f.a))
    requires ParseInputs(lines[1..], f.i, f.m, {}) == Success(f.inputs)
    requires ParseOutputs(lines[1..][f.i..], f.o, f.m) == Success(f.outputs)
    requires ParseAnds(lines[1..][f.i..][f.o..], f.a, f.m, IdsOf(f.inputs)) == Success(f.ands)
    requires ParseSymbols(lines[1..][f.i..][f.o..][f.a..], f.i, f.o, {}) == Success(f.symbols)
    ensures Parse(lines) == Success(f)
  {
  }

  /**
   * The round trip of the reader and the writer: the lines written for a record the reader would
   * accept are read back as that same record.
   */
  lemma ParseText(f: Aag)
    requires WellFormed(f)
    ensures Parse(Text(f)) == Success(f)
  {
    HeaderTextRead(f);
    InputsPart(f);
    OutputsPart(f);
    AndsPart(f);
    SymbolsPart(f);
    PartsRead(Text(f), f);
  }

  lemma InputsPart(f: Aag)
    requires WellFormed(f)
    ensures ParseInputs(Text(f)[1..], f.i, f.m, {}) == Success(f.inputs)
  {
    TextParts(f);
    DistinctParts(f);
    InputsRead(f.inputs, NumberTexts(f.outputs) + (AndTexts(f.ands) + (SymbolTexts(f.symbols) + [['c' as byte]])), f.m, {});
  }

  lemma OutputsPart(f: Aag)
    requires WellFormed(f)
    ensures ParseOutputs(Text(f)[1..][f.i..], f.o, f.m) == Success(f.outputs)
  {
    TextParts(f);
    OutputsRead(f.outputs, AndTexts(f.ands) + (SymbolTexts(f.symbols) + [['c' as byte]]), f.m);
  }

  lemma AndsPart(f: Aag)
    requires WellFormed(f)
    ensures ParseAnds(Text(f)[1..][f.i..][f.o..], f.a, f.m, IdsOf(f.inputs)) == Success(f.ands)
  {
    TextParts(f);
    DistinctParts(f);
    AndsRead(f.ands, SymbolTexts(f.symbols) + [['c' as byte]], f.m, IdsOf(f.inputs));
  }

  lemma SymbolsPart(f: Aag)
    requires WellFormed(f)
    ensures ParseSymbols(Text(f)[1..][f.i..][f.o..][f.a..], f.i, f.o, {}) == Success(f.symbols)
  {
    TextParts(f);
    SymbolsRead(f.symbols, f.i, f.o, {});
  }
}
