/** Type annotations: the parser, over the tokens of a text, and the printer. */
module TypeAnnotations {
  import opened Utf8
  import opened Numerals
  import opened Lexing

  datatype TypeExpr =
    | Named(name: Bytes)
    | Generic(name: Bytes, arguments: seq<TypeExpr>)
    | Union(alternatives: seq<TypeExpr>)
    | IntegerArgument(value: nat)

  datatype Tok = Tok(kind: TokenType, lexeme: Bytes)

  datatype Parse<T> = Parsed(value: T, at: nat) | Refused

  const MAX_ARGUMENT := 0xFFFF_FFFF_FFFF_FFFF

  /** The largest integer literal. */
  const MAX_LITERAL := 0x7FFF_FFFF_FFFF_FFFF

  const OPEN: Byte := '[' as int
  const CLOSE: Byte := ']' as int
  const COMMA: Byte := ',' as int
  const BAR: Byte := '|' as int
  const DOT: Byte := '.' as int
  const SPACE: Byte := ' ' as int

  function KindAt(ts: seq<Tok>, i: nat): TokenType {
    if i < |ts| then ts[i].kind else FinFichier
  }

  /** The number the digits at the start write; a separator ends it. */
  function LeadingNumber(lexeme: Bytes, value: nat): nat
    decreases |lexeme|
  {
    if lexeme == [] || !IsDigit(lexeme[0]) then value else LeadingNumber(lexeme[1..], value * 10 + (lexeme[0] - 0x30))
  }

  // The parser

  /** The rest of a name with dots. */
  function NameRest(ts: seq<Tok>, i: nat, name: Bytes): (r: Parse<Bytes>)
    ensures r.Parsed? ==> i <= r.at
    ensures r.Parsed? && i <= |ts| ==> r.at <= |ts|
    decreases |ts| - i
  {
    if KindAt(ts, i) != Point then Parsed(name, i)
    else if KindAt(ts, i + 1) != Ident then Refused
    else NameRest(ts, i + 2, name + [DOT] + ts[i + 1].lexeme)
  }

  function ParseGeneric(ts: seq<Tok>, i: nat): (r: Parse<TypeExpr>)
    ensures r.Parsed? ==> i < r.at <= |ts|
    decreases |ts| - i, 1
  {
    if KindAt(ts, i) != Ident then Refused
    else
      var n := NameRest(ts, i + 1, ts[i].lexeme);
      if n.Refused? then Refused
      else if KindAt(ts, n.at) != CrochetOuv then Parsed(Named(n.value), n.at)
      else if KindAt(ts, n.at + 1) == CrochetFerm then Refused
      else
        var a := ParseArguments(ts, n.at + 1, []);
        if a.Refused? then Refused else Parsed(Generic(n.value, a.value), a.at)
  }

  /** Arguments from one of them on, up to and with the closing bracket. */
  function ParseArguments(ts: seq<Tok>, i: nat, done: seq<TypeExpr>): (r: Parse<seq<TypeExpr>>)
    ensures r.Parsed? ==> i < r.at <= |ts|
    decreases |ts| - i, 3
  {
    var a := if KindAt(ts, i) == EntierLit
             then if LeadingNumber(ts[i].lexeme, 0) <= MAX_ARGUMENT
                  then Parsed(IntegerArgument(LeadingNumber(ts[i].lexeme, 0)), i + 1) else Refused
             else ParseUnion(ts, i);
    if a.Refused? then Refused
    else if KindAt(ts, a.at) == CrochetFerm then Parsed(done + [a.value], a.at + 1)
    else if KindAt(ts, a.at) != Virgule || KindAt(ts, a.at + 1) == CrochetFerm then Refused
    else ParseArguments(ts, a.at + 1, done + [a.value])
  }

  function ParseUnion(ts: seq<Tok>, i: nat): (r: Parse<TypeExpr>)
    ensures r.Parsed? ==> i < r.at <= |ts|
    decreases |ts| - i, 2
  {
    var first := ParseGeneric(ts, i);
    if first.Refused? then Refused
    else if KindAt(ts, first.at) != Pipe then first
    else
      var rest := ParseAlternatives(ts, first.at, [first.value]);
      if rest.Refused? then Refused else Parsed(Union(rest.value), rest.at)
  }

  function ParseAlternatives(ts: seq<Tok>, i: nat, done: seq<TypeExpr>): (r: Parse<seq<TypeExpr>>)
    requires i <= |ts|
    ensures r.Parsed? ==> i <= r.at <= |ts|
    decreases |ts| - i, 0
  {
    if KindAt(ts, i) != Pipe then Parsed(done, i)
    else
      var next := ParseGeneric(ts, i + 1);
      if next.Refused? then Refused else ParseAlternatives(ts, next.at, done + [next.value])
  }

  // The printer

  function Text(t: TypeExpr): Bytes
    decreases t, 0
  {
    match t
    case Named(name) => name
    case Generic(name, arguments) => name + [OPEN] + ArgumentsText(arguments) + [CLOSE]
    case Union(alternatives) => AlternativesText(alternatives)
    case IntegerArgument(value) => Numeral(value)
  }

  function ArgumentsText(ts: seq<TypeExpr>): Bytes
    decreases ts, 1
  {
    if ts == [] then [] else Text(ts[0]) + if |ts| == 1 then [] else [COMMA] + ArgumentsText(ts[1..])
  }

  function AlternativesText(ts: seq<TypeExpr>): Bytes
    decreases ts, 1
  {
    if ts == [] then [] else Text(ts[0]) + if |ts| == 1 then [] else [SPACE, BAR, SPACE] + AlternativesText(ts[1..])
  }

  // The expressions the parser makes

  /** A word the lexer takes for an identifier. */
  predicate IsIdent(w: Bytes) {
    && w != [] && IsAlphaStart(w[0]) && (forall k | 0 <= k < |w| :: IsAlphaContinue(w[k]))
    && !IsWord(w, "tant") && !IsWord(w, "agir") && Keyword(w) == Ident
  }

  /** The parts of a name between its dots. */
  function Split(name: Bytes): (parts: seq<Bytes>)
    ensures parts != []
  {
    if name == [] then [[]]
    else if name[0] == DOT then [[]] + Split(name[1..])
    else var r := Split(name[1..]); [[name[0]] + r[0]] + r[1..]
  }

  predicate IsName(name: Bytes) {
    forall k | 0 <= k < |Split(name)| :: IsIdent(Split(name)[k])
  }

  /** Arguments are integers or types; a union has at least two alternatives, none of them
      a union. */
  predicate Made(t: TypeExpr)
    decreases t, 0
  {
    match t
    case Named(name) => IsName(name)
    case Generic(name, arguments) => IsName(name) && arguments != [] && AllArguments(arguments)
    case Union(alternatives) => |alternatives| >= 2 && AllAlternatives(alternatives)
    case IntegerArgument(_) => false
  }

  predicate AllArguments(ts: seq<TypeExpr>)
    decreases ts, 1
  {
    ts == [] || ((if ts[0].IntegerArgument? then ts[0].value <= MAX_LITERAL else Made(ts[0])) && AllArguments(ts[1..]))
  }

  predicate AllAlternatives(ts: seq<TypeExpr>)
    decreases ts, 1
  {
    ts == [] || (!ts[0].Union? && Made(ts[0]) && AllAlternatives(ts[1..]))
  }

  // Tokens

  /** What the parser sees of the tokens of a text. */
  function Toks(s: Bytes, pieces: seq<Piece>): (ts: seq<Tok>)
    ensures |ts| == |pieces|
  {
    seq(|pieces|, k requires 0 <= k < |pieces| =>
      Tok(pieces[k].kind, if pieces[k].start <= pieces[k].end <= |s| then s[pieces[k].start..pieces[k].end] else []))
  }

  /** The tokens from an offset on. */
  function ToksFrom(s: Bytes, i: nat, literals: Literals): seq<Tok>
    requires i <= |s|
  {
    Toks(s, PiecesFrom(s, i, literals))
  }

  function NameToks(parts: seq<Bytes>): seq<Tok>
    requires parts != []
  {
    [Tok(Ident, parts[0])] + RestToks(parts[1..])
  }

  function RestToks(parts: seq<Bytes>): seq<Tok> {
    if parts == [] then [] else [Tok(Point, [DOT]), Tok(Ident, parts[0])] + RestToks(parts[1..])
  }

  function TypeToks(t: TypeExpr): seq<Tok>
    decreases t, 0
  {
    match t
    case Named(name) => NameToks(Split(name))
    case Generic(name, arguments) =>
      NameToks(Split(name)) + [Tok(CrochetOuv, [OPEN])] + ArgumentsToks(arguments) + [Tok(CrochetFerm, [CLOSE])]
    case Union(alternatives) => AlternativesToks(alternatives)
    case IntegerArgument(value) => [Tok(EntierLit, Numeral(value))]
  }

  function ArgumentsToks(ts: seq<TypeExpr>): seq<Tok>
    decreases ts, 1
  {
    if ts == [] then [] else TypeToks(ts[0]) + if |ts| == 1 then [] else [Tok(Virgule, [COMMA])] + ArgumentsToks(ts[1..])
  }

  function AlternativesToks(ts: seq<TypeExpr>): seq<Tok>
    decreases ts, 1
  {
    if ts == [] then [] else TypeToks(ts[0]) + if |ts| == 1 then [] else [Tok(Pipe, [BAR])] + AlternativesToks(ts[1..])
  }

  /** The literal parsers accept exactly what fits: every numeral up to the largest, and
      nothing whose digits write more. */
  ghost predicate Faithful(literals: Literals) {
    && (forall n: nat | n <= MAX_LITERAL :: literals.fits(Numeral(n)))
    && (forall w | literals.fits(w) :: LeadingNumber(w, 0) <= MAX_LITERAL)
  }
}
