/** What the lexer makes of a text, as functions: where white space and comments end, and
    what token stands at an offset. */
module Lexing {
  import opened Numerals
  import opened Utf8

  datatype TokenType =
    | EntierLit | DecimalLit | TexteLit | SymboleLit | Vrai | Faux | Rien
    | Soit | Fixe | Fonction | Retourne | Classe | Interface | Type | Realise | Remplace | Public | Prive
    | Si | Sinon | Pour | Chaque | Dans | TantQue | AgirSelon | Arreter | Continuer
    | Ici | Parent | En | Importer | Comme | Est | Propager | Ignorer
    | Plus | Moins | Etoile | Slash | Modulo
    | EgalEgal | BangEgal | Inferieur | InferieurEgal | Superieur | SuperieurEgal
    | Egal | Et | Ou | Non | Pipe | Ampersand | Fleche | Point | Virgule | DeuxPoints
    | ParenOuv | ParenFerm | AccoladeOuv | AccoladeFerm | CrochetOuv | CrochetFerm
    | Ident | FinFichier | Erreur | Documentation

  /** What the literal parsers accept: integers that fit, decimals in range. */
  datatype Literals = Literals(fits: Bytes -> bool, finite: Bytes -> bool)

  predicate IsLetter(b: int) {
    'a' as int <= b <= 'z' as int || 'A' as int <= b <= 'Z' as int
  }

  predicate IsAlphaStart(b: int) {
    IsLetter(b) || b == '_' as int || b >= 0xC0
  }

  predicate IsAlphaContinue(b: int) {
    IsLetter(b) || IsDigit(b) || b == '_' as int || b >= 0x80
  }

  const NEWLINE := '\n' as int

  predicate IsWhite(b: int) {
    b == ' ' as int || b == '\t' as int || b == '\r' as int || b == NEWLINE
  }

  /** The byte at an offset, 0 past the end. */
  function Peek(s: Bytes, i: nat): int {
    if i < |s| then s[i] else 0
  }

  /** Whether a word stands at an offset. */
  predicate Stands(s: Bytes, i: nat, word: string)
    decreases |word|
  {
    word == [] || (i < |s| && s[i] == word[0] as int && Stands(s, i + 1, word[1..]))
  }

  // White space and comments

  function LineEnd(s: Bytes, i: nat): (e: nat)
    requires i <= |s|
    ensures i <= e <= |s| && (i < |s| && s[i] != NEWLINE ==> i < e)
    decreases |s| - i
  {
    if i == |s| || s[i] == NEWLINE then i else LineEnd(s, i + 1)
  }

  /** Just after the next end of a block comment, or the end of the text. */
  function CommentEnd(s: Bytes, i: nat): (e: nat)
    requires i <= |s|
    ensures i <= e <= |s|
    decreases |s| - i
  {
    if i == |s| then i else if s[i] == '*' as int && Peek(s, i + 1) == '/' as int then i + 2 else CommentEnd(s, i + 1)
  }

  /** Where a token may begin: past white space and comments, but for documentation. */
  function SkipEnd(s: Bytes, i: nat): (e: nat)
    requires i <= |s|
    ensures i <= e <= |s|
    decreases |s| - i
  {
    if i == |s| then i
    else if IsWhite(s[i]) then SkipEnd(s, i + 1)
    else if s[i] == '/' as int && Peek(s, i + 1) == '/' as int then SkipEnd(s, LineEnd(s, i))
    else if s[i] == '/' as int && Peek(s, i + 1) == '*' as int && Peek(s, i + 2) != '*' as int then SkipEnd(s, CommentEnd(s, i + 2))
    else i
  }

  // Tokens

  /** The kind of a token, where it ends, and the text of a literal. */
  datatype Scan = Scan(kind: TokenType, end: nat, decoded: Bytes)

  function Single(b: int): Option<TokenType> {
    if b == '(' as int then Some(ParenOuv)
    else if b == ')' as int then Some(ParenFerm)
    else if b == '{' as int then Some(AccoladeOuv)
    else if b == '}' as int then Some(AccoladeFerm)
    else if b == '[' as int then Some(CrochetOuv)
    else if b == ']' as int then Some(CrochetFerm)
    else if b == ',' as int then Some(Virgule)
    else if b == '%' as int then Some(Modulo)
    else if b == '*' as int then Some(Etoile)
    else if b == '+' as int then Some(Plus)
    else if b == '&' as int then Some(Ampersand)
    else if b == '|' as int then Some(Pipe)
    else if b == ':' as int then Some(DeuxPoints)
    else if b == '.' as int then Some(Point)
    else None
  }

  function IdentEnd(s: Bytes, i: nat): (e: nat)
    requires i <= |s|
    ensures i <= e <= |s| && !IsAlphaContinue(Peek(s, e)) && forall k | i <= k < e :: IsAlphaContinue(s[k])
    decreases |s| - i
  {
    if i < |s| && IsAlphaContinue(s[i]) then IdentEnd(s, i + 1) else i
  }

  /** Digits, and underscores between two of them. */
  function DigitsEnd(s: Bytes, i: nat): (e: nat)
    requires i <= |s|
    ensures i <= e <= |s|
    decreases |s| - i
  {
    if IsDigit(Peek(s, i)) || (Peek(s, i) == '_' as int && IsDigit(Peek(s, i + 1))) then DigitsEnd(s, i + 1) else i
  }

  function FractionEnd(s: Bytes, i: nat): (e: nat)
    requires i <= |s|
    ensures i <= e <= |s|
  {
    if Peek(s, i) == '.' as int && IsDigit(Peek(s, i + 1)) then DigitsEnd(s, i + 1) else i
  }

  function ExponentEnd(s: Bytes, i: nat): (e: nat)
    requires i <= |s|
    ensures i <= e <= |s|
  {
    if Peek(s, i) == 'e' as int || Peek(s, i) == 'E' as int then
      var d := if Peek(s, i + 1) == '+' as int || Peek(s, i + 1) == '-' as int then i + 2 else i + 1;
      if IsDigit(Peek(s, d)) then DigitsEnd(s, d) else i
    else i
  }

  function NumberScan(s: Bytes, start: nat, literals: Literals): (r: Scan)
    requires start < |s|
    ensures start < r.end <= |s|
  {
    var i := DigitsEnd(s, start + 1);
    var f := FractionEnd(s, i);
    var e := ExponentEnd(s, f);
    if IsAlphaStart(Peek(s, e)) then Scan(Erreur, e, [])
    else if i < e then Scan(if literals.finite(s[start..e]) then DecimalLit else Erreur, e, [])
    else Scan(if literals.fits(s[start..e]) then EntierLit else Erreur, e, [])
  }

  predicate IsWord(s: Bytes, word: string) {
    |s| == |word| && Stands(s, 0, word)
  }

  /** The keywords, those with accents in UTF-8 as well. */
  function Keyword(w: Bytes): (kind: TokenType)
    ensures kind != FinFichier && kind != Erreur && kind != EntierLit
  {
    if IsWord(w, "soit") then Soit
    else if IsWord(w, "fixe") then Fixe
    else if IsWord(w, "fonction") then Fonction
    else if IsWord(w, "retourne") then Retourne
    else if IsWord(w, "classe") then Classe
    else if IsWord(w, "interface") then Interface
    else if IsWord(w, "type") then Type
    else if IsWord(w, "r\U{00C3}\U{00A9}alise") then Realise
    else if IsWord(w, "realise") then Realise
    else if IsWord(w, "remplace") then Remplace
    else if IsWord(w, "public") then Public
    else if IsWord(w, "priv\U{00C3}\U{00A9}") then Prive
    else if IsWord(w, "prive") then Prive
    else if IsWord(w, "si") then Si
    else if IsWord(w, "sinon") then Sinon
    else if IsWord(w, "pour") then Pour
    else if IsWord(w, "chaque") then Chaque
    else if IsWord(w, "dans") then Dans
    else if IsWord(w, "arr\U{00C3}\U{00AA}ter") then Arreter
    else if IsWord(w, "arreter") then Arreter
    else if IsWord(w, "continuer") then Continuer
    else if IsWord(w, "vrai") then Vrai
    else if IsWord(w, "faux") then Faux
    else if IsWord(w, "rien") then Rien
    else if IsWord(w, "ici") then Ici
    else if IsWord(w, "parent") then Parent
    else if IsWord(w, "en") then En
    else if IsWord(w, "importer") then Importer
    else if IsWord(w, "comme") then Comme
    else if IsWord(w, "est") then Est
    else if IsWord(w, "et") then Et
    else if IsWord(w, "ou") then Ou
    else if IsWord(w, "non") then Non
    else if IsWord(w, "propager") then Propager
    else if IsWord(w, "ignorer") then Ignorer
    else Ident
  }

  function BlanksEnd(s: Bytes, i: nat): (e: nat)
    requires i <= |s|
    ensures i <= e <= |s|
    decreases |s| - i
  {
    if i < |s| && (s[i] == ' ' as int || s[i] == '\t' as int) then BlanksEnd(s, i + 1) else i
  }

  lemma StandsFits(s: Bytes, i: nat, word: string)
    requires Stands(s, i, word)
    ensures word != [] ==> i + |word| <= |s|
    decreases |word|
  {
    if |word| > 1 {
      StandsFits(s, i + 1, word[1..]);
    }
  }

  /** A keyword of two words: the second must follow on the line, and end there. */
  function SecondWord(s: Bytes, i: nat, word: string, kind: TokenType): (r: Scan)
    requires i <= |s| && word != []
    ensures i <= r.end <= |s|
  {
    var w := BlanksEnd(s, i);
    if Stands(s, w, word) && !IsAlphaContinue(Peek(s, w + |word|)) then
      StandsFits(s, w, word);
      Scan(kind, w + |word|, [])
    else Scan(Erreur, i, [])
  }

  function WordScan(s: Bytes, start: nat): (r: Scan)
    requires start < |s|
    ensures start < r.end <= |s|
  {
    var e := IdentEnd(s, start + 1);
    var word := s[start..e];
    if IsWord(word, "tant") then SecondWord(s, e, "que", TantQue)
    else if IsWord(word, "agir") then SecondWord(s, e, "selon", AgirSelon)
    else Scan(Keyword(word), e, [])
  }

  // Texts and symbols

  /** What follows a backslash: the bytes it stands for, unless it is in error. */
  datatype Escape = Escape(ok: bool, end: nat, bytes: Bytes)

  /** Up to six hexadecimal digits and a closing brace. */
  function HexScan(s: Bytes, i: nat, code: nat, count: nat): (r: Escape)
    requires i <= |s|
    ensures i <= r.end <= |s|
    decreases |s| - i
  {
    if i == |s| then Escape(false, i, [])
    else if s[i] == '}' as int then
      if count == 0 then Escape(false, i, [])
      else if IsScalar(code) then Escape(true, i + 1, Encode(code))
      else Escape(false, i + 1, [])
    else if HexValue(s[i]).None? || count == 6 then Escape(false, i, [])
    else HexScan(s, i + 1, code * 16 + HexValue(s[i]).value, count + 1)
  }

  function Simple(b: int): Option<Byte> {
    if b == 'n' as int then Some('\n' as int)
    else if b == 't' as int then Some('\t' as int)
    else if b == 'r' as int then Some('\r' as int)
    else if b == '\\' as int then Some('\\' as int)
    else if b == '"' as int then Some('"' as int)
    else if b == '\'' as int then Some('\'' as int)
    else if b == '0' as int then Some(0)
    else None
  }

  function EscapeScan(s: Bytes, i: nat): (r: Escape)
    requires i <= |s|
    ensures i <= r.end <= |s| && (r.ok ==> i < r.end)
  {
    if i == |s| then Escape(false, i, [])
    else if Simple(s[i]).Some? then Escape(true, i + 1, [Simple(s[i]).value])
    else if s[i] == 'u' as int then if Peek(s, i + 1) == '{' as int then HexScan(s, i + 2, 0, 0) else Escape(false, i + 1, [])
    else Escape(false, i + 1, [])
  }

  function TextScan(s: Bytes, i: nat, decoded: Bytes): (r: Scan)
    requires i <= |s|
    ensures i <= r.end <= |s| && (r.kind == TexteLit || r.kind == Erreur)
    decreases |s| - i
  {
    if i == |s| then Scan(Erreur, i, [])
    else if s[i] == '"' as int then Scan(TexteLit, i + 1, decoded)
    else if s[i] == '\\' as int then
      var e := EscapeScan(s, i + 1);
      if e.ok then TextScan(s, e.end, decoded + e.bytes) else Scan(Erreur, e.end, [])
    else TextScan(s, i + 1, decoded + [s[i]])
  }

  function SymbolScan(s: Bytes, i: nat, decoded: Bytes): (r: Scan)
    requires i <= |s|
    ensures i <= r.end <= |s| && (r.kind == SymboleLit || r.kind == Erreur)
    decreases |s| - i
  {
    if i == |s| || s[i] == NEWLINE then Scan(Erreur, i, [])
    else if s[i] == '\'' as int then
      if IsOneCharacter(decoded) then Scan(SymboleLit, i + 1, decoded) else Scan(Erreur, i, [])
    else if s[i] == '\\' as int then
      var e := EscapeScan(s, i + 1);
      if e.ok then SymbolScan(s, e.end, decoded + e.bytes) else Scan(Erreur, e.end, [])
    else SymbolScan(s, i + 1, decoded + [s[i]])
  }

  /** An escape in error that has taken a newline: the cursor does not count it. */
  predicate EscapesNewline(s: Bytes, i: nat) {
    i + 1 < |s| && s[i] == '\\' as int && s[i + 1] == NEWLINE
  }

  /** Whether a text, from an offset on, ends in such an escape. */
  predicate TextSlips(s: Bytes, i: nat)
    requires i <= |s|
    decreases |s| - i
  {
    i < |s| && s[i] != '"' as int &&
    if s[i] == '\\' as int then
      var e := EscapeScan(s, i + 1);
      if e.ok then TextSlips(s, e.end) else EscapesNewline(s, i)
    else TextSlips(s, i + 1)
  }

  predicate SymbolSlips(s: Bytes, i: nat)
    requires i <= |s|
    decreases |s| - i
  {
    i < |s| && s[i] != NEWLINE && s[i] != '\'' as int &&
    if s[i] == '\\' as int then
      var e := EscapeScan(s, i + 1);
      if e.ok then SymbolSlips(s, e.end) else EscapesNewline(s, i)
    else SymbolSlips(s, i + 1)
  }

  /** Whether the token at an offset takes a newline that is not counted. */
  predicate Slips(s: Bytes, i: nat) {
    i < |s| && ((s[i] == '"' as int && TextSlips(s, i + 1)) || (s[i] == '\'' as int && SymbolSlips(s, i + 1)))
  }

  lemma {:induction false} SlippingTextIsWrong(s: Bytes, i: nat, decoded: Bytes)
    requires i <= |s| && TextSlips(s, i)
    ensures TextScan(s, i, decoded).kind == Erreur
    decreases |s| - i
  {
    hide EscapeScan;
    if s[i] != '\\' as int {
      SlippingTextIsWrong(s, i + 1, decoded + [s[i]]);
    } else {
      var e := EscapeScan(s, i + 1);
      if e.ok {
        SlippingTextIsWrong(s, e.end, decoded + e.bytes);
      }
    }
  }

  lemma {:induction false} SlippingSymbolIsWrong(s: Bytes, i: nat, decoded: Bytes)
    requires i <= |s| && SymbolSlips(s, i)
    ensures SymbolScan(s, i, decoded).kind == Erreur
    decreases |s| - i
  {
    hide EscapeScan;
    if s[i] != '\\' as int {
      SlippingSymbolIsWrong(s, i + 1, decoded + [s[i]]);
    } else {
      var e := EscapeScan(s, i + 1);
      if e.ok {
        SlippingSymbolIsWrong(s, e.end, decoded + e.bytes);
      }
    }
  }

  predicate IsOneCharacter(s: Bytes) {
    Decode(s, 0).Some? && Decode(s, 0).value.next == |s|
  }

  function Pair(s: Bytes, i: nat, second: char, both: TokenType, one: TokenType): Scan {
    if Peek(s, i + 1) == second as int then Scan(both, i + 2, []) else Scan(one, i + 1, [])
  }

  /** The token at an offset. */
  function TokenAt(s: Bytes, i: nat, literals: Literals): (r: Scan)
    requires i < |s|
    ensures i < r.end <= |s| && r.kind != FinFichier
  {
    var b := s[i];
    if Single(b).Some? then Scan(Single(b).value, i + 1, [])
    else if b == '/' as int then
      if Peek(s, i + 1) == '*' as int && Peek(s, i + 2) == '*' as int then
        Scan(Documentation, CommentEnd(s, if Peek(s, i + 3) == '/' as int then i + 2 else i + 3), [])
      else Scan(Slash, i + 1, [])
    else if b == '=' as int then Pair(s, i, '=', EgalEgal, Egal)
    else if b == '!' as int then Pair(s, i, '=', BangEgal, Erreur)
    else if b == '<' as int then Pair(s, i, '=', InferieurEgal, Inferieur)
    else if b == '>' as int then Pair(s, i, '=', SuperieurEgal, Superieur)
    else if b == '-' as int then Pair(s, i, '>', Fleche, Moins)
    else if b == '"' as int then TextScan(s, i + 1, [])
    else if b == '\'' as int then SymbolScan(s, i + 1, [])
    else if IsDigit(b) then NumberScan(s, i, literals)
    else if IsAlphaStart(b) then WordScan(s, i)
    else Scan(Erreur, i + 1, [])
  }

  /** Only a token in error takes a newline uncounted. */
  lemma SlippingIsWrong(s: Bytes, i: nat, literals: Literals)
    requires Slips(s, i)
    ensures TokenAt(s, i, literals).kind == Erreur
  {
    assert Single(s[i]) == None;
    hide TextScan, SymbolScan, TextSlips, SymbolSlips, Single;
    if s[i] == '"' as int {
      SlippingTextIsWrong(s, i + 1, []);
    } else {
      SlippingSymbolIsWrong(s, i + 1, []);
    }
  }

  // Whole texts

  datatype Piece = Piece(kind: TokenType, start: nat, end: nat, decoded: Bytes)

  function PiecesFrom(s: Bytes, i: nat, literals: Literals): (pieces: seq<Piece>)
    requires i <= |s|
    ensures pieces != []
    decreases |s| - i
  {
    var start := SkipEnd(s, i);
    if start == |s| then [Piece(FinFichier, start, start, [])]
    else
      var t := TokenAt(s, start, literals);
      [Piece(t.kind, start, t.end, t.decoded)] + PiecesFrom(s, t.end, literals)
  }

  /** One piece of white space: a byte of it, a comment to the end of the line, or a block
      comment, closed or running to the end, that is no documentation. */
  predicate WhitePiece(s: Bytes, i: nat, e: nat) {
    && i < e <= |s|
    && (|| (e == i + 1 && IsWhite(s[i]))
        || (s[i] == '/' as int && Peek(s, i + 1) == '/' as int
            && (forall k | i <= k < e :: s[k] != NEWLINE) && (e == |s| || s[e] == NEWLINE))
        || (i + 2 <= e && s[i] == '/' as int && s[i + 1] == '*' as int && Peek(s, i + 2) != '*' as int && BlockEnds(s, i + 2, e)))
  }

  predicate Closes(s: Bytes, k: nat) {
    Peek(s, k) == '*' as int && Peek(s, k + 1) == '/' as int
  }

  /** The first closing mark from `i` on ends at `e`, or there is none and `e` is the end. */
  predicate BlockEnds(s: Bytes, i: nat, e: nat) {
    || (i + 2 <= e && Closes(s, e - 2) && forall k | i <= k < e - 2 :: !Closes(s, k))
    || (e == |s| && forall k | i <= k < |s| :: !Closes(s, k))
  }

  /** White space and ordinary comments only. */
  ghost predicate Blank(s: Bytes, i: nat, e: nat)
    decreases e - i
  {
    i == e || (i < e && exists k | i < k <= e :: WhitePiece(s, i, k) && Blank(s, k, e))
  }

  lemma {:induction false} CommentEnds(s: Bytes, i: nat)
    requires i <= |s|
    ensures BlockEnds(s, i, CommentEnd(s, i))
    decreases |s| - i
  {
    if i < |s| && !Closes(s, i) {
      CommentEnds(s, i + 1);
    }
  }

  lemma {:induction false} LineEnds(s: Bytes, i: nat)
    requires i <= |s|
    ensures var e := LineEnd(s, i); (forall k | i <= k < e :: s[k] != NEWLINE) && (e == |s| || s[e] == NEWLINE)
    decreases |s| - i
  {
    if i < |s| && s[i] != NEWLINE {
      LineEnds(s, i + 1);
    }
  }

  /** Between two tokens there is white space and ordinary comments, and nothing else. */
  lemma {:induction false} SkippedIsBlank(s: Bytes, i: nat)
    requires i <= |s|
    ensures Blank(s, i, SkipEnd(s, i))
    decreases |s| - i
  {
    hide BlockEnds;
    var e := SkipEnd(s, i);
    if i < e {
      var k := if IsWhite(s[i]) then i + 1 else if s[i + 1] == '/' as int then LineEnd(s, i) else CommentEnd(s, i + 2);
      if !IsWhite(s[i]) && s[i + 1] == '/' as int {
        LineEnds(s, i);
      } else if !IsWhite(s[i]) {
        CommentEnds(s, i + 2);
      }
      assert WhitePiece(s, i, k);
      SkippedIsBlank(s, k);
    }
  }

  /** Tokens one after the other, each of some length, with blanks between them, and the end
      of the text last. */
  ghost predicate Spans(s: Bytes, i: nat, pieces: seq<Piece>)
    decreases |pieces|
  {
    pieces != [] && i <= pieces[0].start &&
    var p := pieces[0];
    && Blank(s, i, p.start)
    && if |pieces| == 1 then p.kind == FinFichier && p.start == p.end == |s|
       else p.kind != FinFichier && p.start < p.end <= |s| && Spans(s, p.end, pieces[1..])
  }

  lemma {:induction false} PiecesAreSpans(s: Bytes, i: nat, literals: Literals)
    requires i <= |s|
    ensures Spans(s, i, PiecesFrom(s, i, literals))
    decreases |s| - i
  {
    hide TokenAt, Blank;
    SkippedIsBlank(s, i);
    var start := SkipEnd(s, i);
    if start < |s| {
      PiecesAreSpans(s, TokenAt(s, start, literals).end, literals);
      var pieces := PiecesFrom(s, i, literals);
      assert pieces[1..] == PiecesFrom(s, TokenAt(s, start, literals).end, literals);
    }
  }

  // Positions

  /** One more than the newlines before an offset. */
  function LineAt(s: Bytes, i: nat): nat
    requires i <= |s|
  {
    if i == 0 then 1 else LineAt(s, i - 1) + if s[i - 1] == NEWLINE then 1 else 0
  }

  /** One more than the bytes since the last newline. */
  function ColumnAt(s: Bytes, i: nat): nat
    requires i <= |s|
  {
    if i == 0 || s[i - 1] == NEWLINE then 1 else ColumnAt(s, i - 1) + 1
  }
}
