/** The lexer: a cursor over the text that keeps its line and column, and the methods that
    move it over white space, comments and tokens. */
module Lexers {
  import opened Numerals
  import opened Utf8
  import opened Lexing

  datatype Token = Token(kind: TokenType, start: nat, end: nat, line: int, column: int, decoded: Bytes)

  class Scanner {
    const source: Bytes
    var start: nat
    var current: nat
    var startLine: int
    var startColumn: int
    var line: int
    var column: int
    /** Newlines consumed without being counted. */
    ghost var missed: nat

    constructor (source: Bytes)
      ensures this.source == source && current == 0 && Valid() && Tracks() && missed == 0
    {
      this.source := source;
      start, current, missed := 0, 0, 0;
      startLine, startColumn, line, column := 1, 1, 1, 1;
    }

    ghost predicate Valid()
      reads this
    {
      current <= |source|
    }

    /** The line is that of the offset but for what was missed; so is the column as long as
        nothing was. */
    ghost predicate Tracks()
      requires Valid()
      reads this
    {
      line + missed == LineAt(source, current) && (missed == 0 ==> column == ColumnAt(source, current))
    }

    function Next(): int
      reads this
    {
      Peek(source, current)
    }

    function AfterNext(): int
      reads this
    {
      Peek(source, current + 1)
    }

    /** Consumes a byte, if there is one; a newline is for the caller to count. */
    method Advance() returns (b: int)
      requires Valid()
      modifies this
      ensures Valid() && b == Peek(source, old(current))
      ensures start == old(start) && startLine == old(startLine) && startColumn == old(startColumn) && missed == old(missed)
      ensures current == if old(current) < |source| then old(current) + 1 else old(current)
      ensures old(Tracks()) && b != NEWLINE ==> Tracks()
      ensures line == old(line) && column == if old(current) < |source| then old(column) + 1 else old(column)
    {
      if current == |source| {
        return 0;
      }
      column := column + 1;
      current := current + 1;
      return source[current - 1];
    }

    /** Consumes a byte and, when it is a newline, begins a line. */
    method AdvanceLine() returns (b: int)
      requires Valid() && current < |source|
      modifies this
      ensures Valid() && current == old(current) + 1 && b == source[old(current)]
      ensures start == old(start) && startLine == old(startLine) && startColumn == old(startColumn) && missed == old(missed)
      ensures old(Tracks()) ==> Tracks()
    {
      if source[current] == NEWLINE {
        MarkLineEnd();
      }
      b := Advance();
    }

    method Match(expected: char) returns (matched: bool)
      requires Valid() && expected != '\n' && expected != '\0'
      modifies this
      ensures Valid() && matched == (Peek(source, old(current)) == expected as int)
      ensures current == if matched then old(current) + 1 else old(current)
      ensures start == old(start) && startLine == old(startLine) && startColumn == old(startColumn) && missed == old(missed)
      ensures old(Tracks()) ==> Tracks()
    {
      if current == |source| || source[current] != expected as int {
        return false;
      }
      column := column + 1;
      current := current + 1;
      return true;
    }

    method MarkStart()
      requires Valid()
      modifies this
      ensures Valid() && current == old(current) && line == old(line) && column == old(column) && missed == old(missed)
      ensures start == current && startLine == line && startColumn == column
    {
      start, startLine, startColumn := current, line, column;
    }

    method MarkLineEnd()
      modifies `line, `column
      ensures line == old(line) + 1 && column == 0
    {
      column := 0;
      line := line + 1;
    }

    /** Back to a place saved before. */
    method Restore(savedCurrent: nat, savedLine: int, savedColumn: int)
      modifies `current, `line, `column
      ensures current == savedCurrent && line == savedLine && column == savedColumn
    {
      current, line, column := savedCurrent, savedLine, savedColumn;
    }
  }

  /** What a method that moves the cursor leaves alone. */
  twostate predicate Keeps(sc: Scanner)
    reads sc
  {
    sc.Valid() && sc.start == old(sc.start) && sc.startLine == old(sc.startLine) && sc.startColumn == old(sc.startColumn)
  }

  /** Such a method, when it counts every newline. */
  twostate predicate Moves(sc: Scanner)
    reads sc
  {
    Keeps(sc) && sc.missed == old(sc.missed)
  }

  method SkipWhitespaceAndComments(sc: Scanner)
    requires sc.Valid()
    modifies sc
    ensures sc.Valid() && sc.current == SkipEnd(sc.source, old(sc.current)) && sc.missed == old(sc.missed)
    ensures old(sc.Tracks()) ==> sc.Tracks()
  {
    while sc.current < |sc.source|
      invariant sc.Valid() && sc.missed == old(sc.missed) && SkipEnd(sc.source, sc.current) == SkipEnd(sc.source, old(sc.current))
      invariant old(sc.Tracks()) ==> sc.Tracks()
      decreases |sc.source| - sc.current
    {
      var c := sc.Next();
      if IsWhite(c) {
        var _ := sc.AdvanceLine();
      } else if c == '/' as int && sc.AfterNext() == '/' as int {
        SkipLine(sc);
      } else if c == '/' as int && sc.AfterNext() == '*' as int {
        var documentation := AtDocumentationComment(sc);
        if documentation {
          return;
        }
        var _ := sc.Advance();
        var _ := sc.Advance();
        SkipComment(sc);
      } else {
        return;
      }
    }
  }

  method SkipLine(sc: Scanner)
    requires sc.Valid()
    modifies sc
    ensures Moves(sc) && sc.current == LineEnd(sc.source, old(sc.current))
    ensures old(sc.Tracks()) ==> sc.Tracks()
  {
    while sc.current < |sc.source| && sc.Next() != NEWLINE
      invariant Moves(sc) && LineEnd(sc.source, sc.current) == LineEnd(sc.source, old(sc.current))
      invariant old(sc.Tracks()) ==> sc.Tracks()
      decreases |sc.source| - sc.current
    {
      var _ := sc.Advance();
    }
  }

  /** Past the next closing mark. */
  method SkipComment(sc: Scanner)
    requires sc.Valid()
    modifies sc
    ensures Moves(sc) && sc.current == CommentEnd(sc.source, old(sc.current))
    ensures old(sc.Tracks()) ==> sc.Tracks()
  {
    while sc.current < |sc.source|
      invariant Moves(sc) && CommentEnd(sc.source, sc.current) == CommentEnd(sc.source, old(sc.current))
      invariant old(sc.Tracks()) ==> sc.Tracks()
      decreases |sc.source| - sc.current
    {
      if sc.Next() == '*' as int && sc.AfterNext() == '/' as int {
        var _ := sc.Advance();
        var _ := sc.Advance();
        return;
      }
      var _ := sc.AdvanceLine();
    }
  }

  /** Looks ahead and comes back. */
  method AtDocumentationComment(sc: Scanner) returns (r: bool)
    requires sc.Valid()
    modifies sc
    ensures Moves(sc) && sc.current == old(sc.current) && sc.line == old(sc.line) && sc.column == old(sc.column)
    ensures r == (Peek(sc.source, sc.current) == '/' as int && Peek(sc.source, sc.current + 1) == '*' as int
                  && Peek(sc.source, sc.current + 2) == '*' as int)
  {
    var current, line, column := sc.current, sc.line, sc.column;
    r := sc.Match('/');
    if r {
      r := sc.Match('*');
    }
    r := r && sc.Next() == '*' as int;
    sc.Restore(current, line, column);
  }

  /** What a scanning method has done: moved to the end of the token, counting every newline
      but perhaps the one of an escape in error. */
  twostate predicate Did(sc: Scanner, scan: Scan, slips: bool)
    requires old(sc.Valid())
    reads sc
  {
    && Keeps(sc) && sc.current == scan.end && (old(sc.Tracks()) ==> sc.Tracks())
    && sc.missed == old(sc.missed) + if slips then 1 else 0
  }

  method ScanToken(sc: Scanner, literals: Literals) returns (token: Token)
    requires sc.Valid() && sc.current < |sc.source| && sc.start == sc.current && !IsWhite(sc.source[sc.current])
    modifies sc
    ensures Did(sc, TokenAt(sc.source, old(sc.current), literals), Slips(sc.source, old(sc.current)))
    ensures var t := TokenAt(sc.source, old(sc.current), literals);
            token == Token(t.kind, old(sc.current), t.end, old(sc.startLine), old(sc.startColumn), t.decoded)
  {
    hide TextScan, SymbolScan, TextSlips, SymbolSlips, NumberScan, WordScan, CommentEnd, Single, IsAlphaStart, IsDigit, LineAt, ColumnAt;
    SingleIsNoNewline();
    var kind, decoded := Erreur, [];
    var c := sc.Advance();
    if Single(c).Some? {
      kind := Single(c).value;
    } else if c == '/' as int {
      if sc.Next() == '*' as int && sc.AfterNext() == '*' as int {
        kind := Documentation;
        ScanDocumentation(sc);
      } else {
        kind := Slash;
      }
    } else if c == '=' as int {
      kind := OneOrTwo(sc, '=', EgalEgal, Egal);
    } else if c == '!' as int {
      kind := OneOrTwo(sc, '=', BangEgal, Erreur);
    } else if c == '<' as int {
      kind := OneOrTwo(sc, '=', InferieurEgal, Inferieur);
    } else if c == '>' as int {
      kind := OneOrTwo(sc, '=', SuperieurEgal, Superieur);
    } else if c == '-' as int {
      kind := OneOrTwo(sc, '>', Fleche, Moins);
    } else if c == '"' as int {
      kind, decoded := ScanText(sc);
    } else if c == '\'' as int {
      kind, decoded := ScanSymbol(sc);
    } else if IsDigit(c) {
      kind := ScanNumber(sc, literals);
    } else if IsAlphaStart(c) {
      kind := ScanWord(sc);
    }
    token := Token(kind, sc.start, sc.current, sc.startLine, sc.startColumn, decoded);
  }

  lemma SingleIsNoNewline()
    ensures Single(NEWLINE).None? && !IsDigit(NEWLINE) && !IsAlphaStart(NEWLINE)
    ensures Single('/' as int).None? && Single('=' as int).None? && Single('!' as int).None? && Single('<' as int).None?
    ensures Single('>' as int).None? && Single('-' as int).None? && Single('"' as int).None? && Single('\'' as int).None?
  {}

  method OneOrTwo(sc: Scanner, second: char, both: TokenType, one: TokenType) returns (kind: TokenType)
    requires sc.Valid() && second != '\n' && second != '\0'
    modifies sc
    ensures Moves(sc) && (old(sc.Tracks()) ==> sc.Tracks())
    ensures var matched := Peek(sc.source, old(sc.current)) == second as int;
            kind == (if matched then both else one) && sc.current == (if matched then old(sc.current) + 1 else old(sc.current))
  {
    var matched := sc.Match(second);
    kind := if matched then both else one;
  }

  /** A documentation comment after its slash, `/**/` included. */
  method ScanDocumentation(sc: Scanner)
    requires sc.Valid() && sc.Next() == '*' as int && sc.AfterNext() == '*' as int
    modifies sc
    ensures Moves(sc) && (old(sc.Tracks()) ==> sc.Tracks())
    ensures sc.current == CommentEnd(sc.source, if Peek(sc.source, old(sc.current) + 2) == '/' as int then old(sc.current) + 1 else old(sc.current) + 2)
  {
    hide CommentEnd;
    var _ := sc.Advance();
    if !(sc.Next() == '*' as int && sc.AfterNext() == '/' as int) {
      var _ := sc.Advance();
    }
    SkipComment(sc);
  }

  method ScanText(sc: Scanner) returns (kind: TokenType, decoded: Bytes)
    requires sc.Valid()
    modifies sc
    ensures var t := TextScan(sc.source, old(sc.current), []);
            Did(sc, t, TextSlips(sc.source, old(sc.current))) && kind == t.kind && decoded == t.decoded
  {
    hide EscapeScan;
    decoded := [];
    while sc.current < |sc.source| && sc.Next() != '"' as int
      invariant Moves(sc) && (old(sc.Tracks()) ==> sc.Tracks())
      invariant TextScan(sc.source, sc.current, decoded) == TextScan(sc.source, old(sc.current), [])
      invariant TextSlips(sc.source, sc.current) == TextSlips(sc.source, old(sc.current))
      decreases |sc.source| - sc.current
    {
      if sc.Next() == '\\' as int {
        var _ := sc.Advance();
        var ok, bytes := DecodeEscapeSequence(sc);
        if !ok {
          return Erreur, [];
        }
        decoded := decoded + bytes;
      } else {
        var b := sc.AdvanceLine();
        decoded := decoded + [b];
      }
    }
    if sc.current == |sc.source| {
      return Erreur, [];
    }
    var _ := sc.Advance();
    kind := TexteLit;
  }

  method ScanSymbol(sc: Scanner) returns (kind: TokenType, decoded: Bytes)
    requires sc.Valid()
    modifies sc
    ensures var t := SymbolScan(sc.source, old(sc.current), []);
            Did(sc, t, SymbolSlips(sc.source, old(sc.current))) && kind == t.kind && decoded == t.decoded
  {
    hide EscapeScan, LineAt, ColumnAt;
    decoded := [];
    while sc.current < |sc.source| && sc.Next() != '\'' as int
      invariant Moves(sc) && (old(sc.Tracks()) ==> sc.Tracks())
      invariant SymbolScan(sc.source, sc.current, decoded) == SymbolScan(sc.source, old(sc.current), [])
      invariant SymbolSlips(sc.source, sc.current) == SymbolSlips(sc.source, old(sc.current))
      decreases |sc.source| - sc.current
    {
      if sc.Next() == NEWLINE {
        return Erreur, [];
      }
      if sc.Next() == '\\' as int {
        var _ := sc.Advance();
        var ok, bytes := DecodeEscapeSequence(sc);
        if !ok {
          return Erreur, [];
        }
        decoded := decoded + bytes;
      } else {
        var b := sc.Advance();
        decoded := decoded + [b];
      }
    }
    if sc.current == |sc.source| {
      return Erreur, [];
    }
    var one := DecodeSingleCharacter(decoded);
    if one.None? {
      return Erreur, [];
    }
    var _ := sc.Advance();
    kind := SymboleLit;
  }

  /** What follows a backslash. A newline there is consumed without being counted. */
  method DecodeEscapeSequence(sc: Scanner) returns (ok: bool, bytes: Bytes)
    requires sc.Valid()
    modifies sc
    ensures var e := EscapeScan(sc.source, old(sc.current));
            && Keeps(sc) && ok == e.ok && bytes == e.bytes && sc.current == e.end && (old(sc.Tracks()) ==> sc.Tracks())
    ensures sc.missed == old(sc.missed) + if Peek(sc.source, old(sc.current)) == NEWLINE then 1 else 0
    ensures ok ==> sc.missed == old(sc.missed)
  {
    if sc.current == |sc.source| {
      return false, [];
    }
    var c := sc.Advance();
    if Simple(c).Some? {
      return true, [Simple(c).value];
    }
    if c == 'u' as int {
      ok, bytes := DecodeUnicodeEscape(sc);
      return;
    }
    if c == NEWLINE {
      sc.missed := sc.missed + 1;
    }
    return false, [];
  }

  method DecodeUnicodeEscape(sc: Scanner) returns (ok: bool, bytes: Bytes)
    requires sc.Valid() && 0 < sc.current && sc.source[sc.current - 1] == 'u' as int
    modifies sc
    ensures var e := if Peek(sc.source, old(sc.current)) == '{' as int then HexScan(sc.source, old(sc.current) + 1, 0, 0)
                     else Escape(false, old(sc.current), []);
            && Moves(sc) && ok == e.ok && bytes == e.bytes && sc.current == e.end && (old(sc.Tracks()) ==> sc.Tracks())
  {
    hide IsScalar, Encode;
    if sc.current == |sc.source| || sc.Next() != '{' as int {
      return false, [];
    }
    var _ := sc.Advance();
    var code: nat, count: nat := 0, 0;
    while sc.current < |sc.source| && sc.Next() != '}' as int
      invariant Moves(sc) && (old(sc.Tracks()) ==> sc.Tracks())
      invariant HexScan(sc.source, sc.current, code, count) == HexScan(sc.source, old(sc.current) + 1, 0, 0)
      decreases |sc.source| - sc.current
    {
      var digit := HexValue(sc.Next());
      if digit.None? || count == 6 {
        return false, [];
      }
      code := code * 16 + digit.value;
      count := count + 1;
      var _ := sc.Advance();
    }
    if count == 0 || sc.current == |sc.source| {
      return false, [];
    }
    var _ := sc.Advance();
    if !IsScalar(code) {
      return false, [];
    }
    ok := true;
    bytes := EncodeCharacter(code);
  }

  method ConsumeDigits(sc: Scanner)
    requires sc.Valid()
    modifies sc
    ensures Moves(sc) && sc.current == DigitsEnd(sc.source, old(sc.current)) && (old(sc.Tracks()) ==> sc.Tracks())
  {
    while IsDigit(sc.Next()) || (sc.Next() == '_' as int && IsDigit(sc.AfterNext()))
      invariant Moves(sc) && (old(sc.Tracks()) ==> sc.Tracks())
      invariant DigitsEnd(sc.source, sc.current) == DigitsEnd(sc.source, old(sc.current))
      decreases |sc.source| - sc.current
    {
      var _ := sc.Advance();
    }
  }

  /** An exponent, unless no digit follows it: then the cursor comes back. */
  method ConsumeExponent(sc: Scanner)
    requires sc.Valid()
    modifies sc
    ensures Moves(sc) && sc.current == ExponentEnd(sc.source, old(sc.current)) && (old(sc.Tracks()) ==> sc.Tracks())
  {
    hide DigitsEnd;
    if sc.Next() == 'e' as int || sc.Next() == 'E' as int {
      var current, line, column := sc.current, sc.line, sc.column;
      var _ := sc.Advance();
      if sc.Next() == '+' as int || sc.Next() == '-' as int {
        var _ := sc.Advance();
      }
      if IsDigit(sc.Next()) {
        ConsumeDigits(sc);
      } else {
        sc.Restore(current, line, column);
      }
    }
  }

  method ScanNumber(sc: Scanner, literals: Literals) returns (kind: TokenType)
    requires sc.Valid() && sc.start + 1 == sc.current
    modifies sc
    ensures var t := NumberScan(sc.source, old(sc.start), literals);
            Did(sc, t, false) && kind == t.kind && t.decoded == []
  {
    hide DigitsEnd, ExponentEnd;
    ConsumeDigits(sc);
    var whole := sc.current;
    if sc.Next() == '.' as int && IsDigit(sc.AfterNext()) {
      var _ := sc.Advance();
      ConsumeDigits(sc);
    }
    ConsumeExponent(sc);
    if IsAlphaStart(sc.Next()) {
      return Erreur;
    }
    var lexeme := sc.source[sc.start..sc.current];
    if whole < sc.current {
      return if literals.finite(lexeme) then DecimalLit else Erreur;
    }
    return if literals.fits(lexeme) then EntierLit else Erreur;
  }

  method ScanWord(sc: Scanner) returns (kind: TokenType)
    requires sc.Valid() && sc.start + 1 == sc.current
    modifies sc
    ensures var t := WordScan(sc.source, old(sc.start));
            Did(sc, t, false) && kind == t.kind && t.decoded == []
  {
    hide SecondWord, Keyword, IsWord, IsAlphaContinue;
    AlphaIsNoNewline();
    while sc.current < |sc.source| && IsAlphaContinue(sc.Next())
      invariant Moves(sc) && (old(sc.Tracks()) ==> sc.Tracks())
      invariant IdentEnd(sc.source, sc.current) == IdentEnd(sc.source, old(sc.current))
      decreases |sc.source| - sc.current
    {
      var _ := sc.Advance();
    }
    var word := sc.source[sc.start..sc.current];
    if IsWord(word, "tant") {
      kind := ScanSecondWord(sc, "que", TantQue);
    } else if IsWord(word, "agir") {
      kind := ScanSecondWord(sc, "selon", AgirSelon);
    } else {
      kind := Keyword(word);
    }
  }

  lemma AlphaIsNoNewline()
    ensures !IsAlphaContinue(NEWLINE)
  {}

  /** The second word of a keyword, or back to where it should have begun. */
  method ScanSecondWord(sc: Scanner, word: string, kind: TokenType) returns (found: TokenType)
    requires sc.Valid() && word != [] && forall k | 0 <= k < |word| :: word[k] != '\n' && word[k] != '\0'
    modifies sc
    ensures var t := SecondWord(sc.source, old(sc.current), word, kind);
            Moves(sc) && found == t.kind && sc.current == t.end && t.decoded == [] && (old(sc.Tracks()) ==> sc.Tracks())
  {
    hide Stands, IsAlphaContinue, BlanksEnd, SecondWord, LineAt, ColumnAt;
    SecondWordIs(sc.source, sc.current, word, kind);
    var current, line, column := sc.current, sc.line, sc.column;
    SkipBlanks(sc);
    var matched := MatchWord(sc, word);
    if matched && !IsAlphaContinue(sc.Next()) {
      return kind;
    }
    sc.Restore(current, line, column);
    return Erreur;
  }

  method SkipBlanks(sc: Scanner)
    requires sc.Valid()
    modifies sc
    ensures Moves(sc) && sc.current == BlanksEnd(sc.source, old(sc.current)) && (old(sc.Tracks()) ==> sc.Tracks())
  {
    while sc.current < |sc.source| && (sc.Next() == ' ' as int || sc.Next() == '\t' as int)
      invariant Moves(sc) && (old(sc.Tracks()) ==> sc.Tracks())
      invariant BlanksEnd(sc.source, sc.current) == BlanksEnd(sc.source, old(sc.current))
      decreases |sc.source| - sc.current
    {
      var _ := sc.Advance();
    }
  }

  lemma SecondWordIs(s: Bytes, i: nat, word: string, kind: TokenType)
    requires i <= |s| && word != []
    ensures var w := BlanksEnd(s, i);
            SecondWord(s, i, word, kind) ==
            if Stands(s, w, word) && !IsAlphaContinue(Peek(s, w + |word|)) then Scan(kind, w + |word|, []) else Scan(Erreur, i, [])
  {}

  /** A word, byte by byte; the caller comes back if it is not there. */
  method MatchWord(sc: Scanner, word: string) returns (matched: bool)
    requires sc.Valid() && forall k | 0 <= k < |word| :: word[k] != '\n' && word[k] != '\0'
    modifies sc
    ensures Moves(sc) && matched == Stands(sc.source, old(sc.current), word) && (old(sc.Tracks()) ==> sc.Tracks())
    ensures matched ==> sc.current == old(sc.current) + |word|
  {
    for k := 0 to |word|
      invariant Moves(sc) && (old(sc.Tracks()) ==> sc.Tracks()) && sc.current == old(sc.current) + k
      invariant Stands(sc.source, old(sc.current), word) <==> Stands(sc.source, sc.current, word[k..])
    {
      assert word[k..][1..] == word[k + 1..];
      matched := sc.Match(word[k]);
      if !matched {
        return false;
      }
    }
    return true;
  }

  /** Token and piece tell the same, and the token has the position of its start. */
  ghost predicate Pieces(tokens: seq<Token>, pieces: seq<Piece>) {
    |tokens| == |pieces| && forall k | 0 <= k < |tokens| ::
      tokens[k].kind == pieces[k].kind && tokens[k].start == pieces[k].start && tokens[k].end == pieces[k].end
      && tokens[k].decoded == pieces[k].decoded
  }

  ghost predicate AtItsPlace(s: Bytes, t: Token) {
    t.start <= |s| && t.line == LineAt(s, t.start) && t.column == ColumnAt(s, t.start)
  }

  /** The tokens before the `k`-th have counted every newline. */
  ghost predicate AllCounted(s: Bytes, tokens: seq<Token>, k: nat)
    requires k <= |tokens|
  {
    forall j | 0 <= j < k :: !Slips(s, tokens[j].start)
  }

  /** A token has the right position exactly when no token before it took a newline that was
      not counted. */
  ghost predicate Positioned(s: Bytes, tokens: seq<Token>) {
    forall k | 0 <= k < |tokens| :: AtItsPlace(s, tokens[k]) <==> AllCounted(s, tokens, k)
  }

  predicate NoError(tokens: seq<Token>) {
    forall k | 0 <= k < |tokens| :: tokens[k].kind != Erreur
  }

  /** The tokens of a text: they cover it but for white space and comments, and each has its
      line and its column unless an escape in error before it has taken a newline. */
  method Tokenise(source: Bytes, literals: Literals) returns (tokens: seq<Token>)
    ensures Pieces(tokens, PiecesFrom(source, 0, literals)) && Spans(source, 0, PiecesFrom(source, 0, literals))
    ensures Positioned(source, tokens)
  {
    hide SkipEnd, TokenAt, LineAt, ColumnAt, Spans, Pieces, Positioned, AllCounted, PiecesFrom, Slips;
    PiecesAreSpans(source, 0, literals);
    var sc := new Scanner(source);
    tokens := [];
    ghost var before: seq<Piece> := [];
    NoTokens(source, literals);
    while sc.current < |source|
      invariant sc.Valid() && sc.source == source && sc.Tracks()
      invariant before + PiecesFrom(source, sc.current, literals) == PiecesFrom(source, 0, literals)
      invariant Pieces(tokens, before) && Positioned(source, tokens)
      invariant sc.missed == 0 <==> AllCounted(source, tokens, |tokens|)
      decreases |source| - sc.current
    {
      ghost var i := sc.current;
      SkipWhitespaceAndComments(sc);
      SkippedPieces(source, i, literals);
      if sc.current == |source| {
        break;
      }
      NothingWhiteLeft(source, i);
      sc.MarkStart();
      var token := ScanToken(sc, literals);
      NextPiece(source, token.start, literals, before);
      OneMoreToken(source, tokens, before, token);
      before := before + [PieceOf(token)];
      tokens := tokens + [token];
    }
    var end := Token(FinFichier, sc.current, sc.current, sc.line, sc.column, []);
    LastPiece(source, literals);
    OneMoreToken(source, tokens, before, end);
    tokens := tokens + [end];
  }

  /** When no token is in error, all have their positions. */
  lemma NoErrorIsPositioned(s: Bytes, tokens: seq<Token>, literals: Literals)
    requires Pieces(tokens, PiecesFrom(s, 0, literals)) && Positioned(s, tokens) && NoError(tokens)
    ensures forall k | 0 <= k < |tokens| :: AtItsPlace(s, tokens[k])
  {
    hide AtItsPlace, Slips;
    forall j | 0 <= j < |tokens| ensures !Slips(s, tokens[j].start) {
      if Slips(s, tokens[j].start) {
        SlipsInside(s, tokens[j].start);
        PieceIsToken(s, 0, literals, j);
        SlippingIsWrong(s, tokens[j].start, literals);
      }
    }
  }

  lemma SlipsInside(s: Bytes, i: nat)
    requires Slips(s, i)
    ensures i < |s|
  {}

  /** Every piece before the end of the text is the token at its start. */
  lemma {:induction false} PieceIsToken(s: Bytes, i: nat, literals: Literals, k: nat)
    requires i <= |s| && k < |PiecesFrom(s, i, literals)| && PiecesFrom(s, i, literals)[k].start < |s|
    ensures PiecesFrom(s, i, literals)[k].kind == TokenAt(s, PiecesFrom(s, i, literals)[k].start, literals).kind
    decreases k
  {
    hide TokenAt, SkipEnd;
    if k > 0 {
      PieceIsToken(s, TokenAt(s, SkipEnd(s, i), literals).end, literals, k - 1);
    }
  }

  /** A text whose first token ends in a backslash and a newline: what follows is one line
      further down than the lexer says. */
  const SLIPPING: Bytes := ['"' as int, '\\' as int, NEWLINE, '(' as int]

  lemma MissedNewline(tokens: seq<Token>, literals: Literals)
    requires Pieces(tokens, PiecesFrom(SLIPPING, 0, literals)) && Positioned(SLIPPING, tokens)
    ensures |tokens| == 3 && tokens[0].kind == Erreur && tokens[1].kind == ParenOuv
    ensures AtItsPlace(SLIPPING, tokens[0]) && !AtItsPlace(SLIPPING, tokens[1]) && !AtItsPlace(SLIPPING, tokens[2])
  {
    SlippingPieces(literals);
    hide PiecesFrom, Slips, AtItsPlace;
    assert AllCounted(SLIPPING, tokens, 0);
  }

  lemma SlippingText()
    ensures TextScan(SLIPPING, 1, []) == Scan(Erreur, 3, []) && TextSlips(SLIPPING, 1)
  {
    assert EscapeScan(SLIPPING, 2) == Escape(false, 3, []);
  }

  lemma SlippingTokens(literals: Literals)
    ensures TokenAt(SLIPPING, 0, literals) == Scan(Erreur, 3, []) && TokenAt(SLIPPING, 3, literals) == Scan(ParenOuv, 4, [])
  {
    SlippingText();
    hide NumberScan, WordScan, SymbolScan, TextScan, CommentEnd, Pair, IsAlphaStart, IsDigit;
    assert Single('"' as int) == None && Single('(' as int) == Some(ParenOuv);
  }

  lemma SlippingSkips()
    ensures SkipEnd(SLIPPING, 0) == 0 && SkipEnd(SLIPPING, 3) == 3 && SkipEnd(SLIPPING, 4) == 4
  {
    hide CommentEnd;
  }

  lemma SlippingPieces(literals: Literals)
    ensures PiecesFrom(SLIPPING, 0, literals) ==
            [Piece(Erreur, 0, 3, []), Piece(ParenOuv, 3, 4, []), Piece(FinFichier, 4, 4, [])]
    ensures Slips(SLIPPING, 0)
  {
    var s := SLIPPING;
    hide TokenAt, SkipEnd, TextSlips;
    SlippingText();
    SlippingTokens(literals);
    SlippingSkips();
    assert PiecesFrom(s, 4, literals) == [Piece(FinFichier, 4, 4, [])];
    assert PiecesFrom(s, 3, literals) == [Piece(ParenOuv, 3, 4, [])] + PiecesFrom(s, 4, literals);
  }

  lemma NothingWhiteLeft(s: Bytes, i: nat)
    requires i <= |s|
    ensures SkipEnd(s, i) < |s| ==> !IsWhite(s[SkipEnd(s, i)])
  {
    SkipTwice(s, i);
    assert SkipEnd(s, SkipEnd(s, i)) == SkipEnd(s, i);
  }

  function PieceOf(token: Token): Piece {
    Piece(token.kind, token.start, token.end, token.decoded)
  }

  lemma NoTokens(s: Bytes, literals: Literals)
    ensures Pieces([], []) && Positioned(s, []) && AllCounted(s, [], 0)
    ensures [] + PiecesFrom(s, 0, literals) == PiecesFrom(s, 0, literals)
  {}

  /** Skipping loses no token. */
  lemma SkippedPieces(s: Bytes, i: nat, literals: Literals)
    requires i <= |s|
    ensures PiecesFrom(s, SkipEnd(s, i), literals) == PiecesFrom(s, i, literals)
  {
    hide SkipEnd, TokenAt;
    SkipTwice(s, i);
  }

  lemma NextPiece(s: Bytes, i: nat, literals: Literals, before: seq<Piece>)
    requires i < |s| && (exists j :: 0 <= j <= |s| && SkipEnd(s, j) == i)
    ensures var t := TokenAt(s, i, literals);
            before + PiecesFrom(s, i, literals) == before + [Piece(t.kind, i, t.end, t.decoded)] + PiecesFrom(s, t.end, literals)
  {
    hide SkipEnd, TokenAt;
    var j :| 0 <= j <= |s| && SkipEnd(s, j) == i;
    SkipTwice(s, j);
  }

  lemma LastPiece(s: Bytes, literals: Literals)
    ensures PiecesFrom(s, |s|, literals) == [Piece(FinFichier, |s|, |s|, [])]
  {}

  lemma OneMoreToken(s: Bytes, tokens: seq<Token>, before: seq<Piece>, token: Token)
    requires Pieces(tokens, before) && Positioned(s, tokens)
    requires AtItsPlace(s, token) <==> AllCounted(s, tokens, |tokens|)
    ensures Pieces(tokens + [token], before + [PieceOf(token)]) && Positioned(s, tokens + [token])
    ensures AllCounted(s, tokens + [token], |tokens| + 1) <==> AllCounted(s, tokens, |tokens|) && !Slips(s, token.start)
  {
    hide AtItsPlace, Slips;
    var all := tokens + [token];
    assert all[|tokens|] == token && forall k | 0 <= k < |tokens| :: all[k] == tokens[k];
    forall k | 0 <= k < |all| ensures AtItsPlace(s, all[k]) <==> AllCounted(s, all, k) {
      assert AllCounted(s, all, k) <==> AllCounted(s, tokens, k);
    }
  }

  /** Nothing is left to skip where skipping stopped. */
  lemma {:induction false} SkipTwice(s: Bytes, i: nat)
    requires i <= |s|
    ensures SkipEnd(s, SkipEnd(s, i)) == SkipEnd(s, i)
    decreases |s| - i
  {
    if i < SkipEnd(s, i) {
      if IsWhite(s[i]) {
        SkipTwice(s, i + 1);
      } else if s[i + 1] == '/' as int {
        SkipTwice(s, LineEnd(s, i));
      } else {
        SkipTwice(s, CommentEnd(s, i + 2));
      }
    }
  }
}
