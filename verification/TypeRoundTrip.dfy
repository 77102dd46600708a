/** Printing a type annotation and reading it again gives the annotation back. */
module TypeRoundTrip {
  import opened Utf8
  import opened Numerals
  import opened Subsequences
  import opened Lexing
  import opened TypeAnnotations

  // Tokens of a printed annotation

  /** No identifier or number goes on at the offset. */
  predicate Stops(s: Bytes, e: nat) {
    !IsAlphaContinue(Peek(s, e)) && Peek(s, e) != '.' as int
  }

  lemma PieceThen(s: Bytes, i: nat, literals: Literals)
    requires i < |s| && SkipEnd(s, i) == i
    ensures ToksFrom(s, i, literals) ==
            [Tok(TokenAt(s, i, literals).kind, s[i..TokenAt(s, i, literals).end])] + ToksFrom(s, TokenAt(s, i, literals).end, literals)
  {
    hide SkipEnd, TokenAt;
  }

  lemma SpaceThen(s: Bytes, i: nat, literals: Literals)
    requires i < |s| && s[i] == SPACE
    ensures ToksFrom(s, i, literals) == ToksFrom(s, i + 1, literals)
  {
    assert SkipEnd(s, i) == SkipEnd(s, i + 1);
    hide SkipEnd, TokenAt;
  }

  predicate Mark(b: Byte) {
    b == OPEN || b == CLOSE || b == COMMA || b == BAR || b == DOT
  }

  function MarkKind(b: Byte): TokenType {
    if b == OPEN then CrochetOuv else if b == CLOSE then CrochetFerm else if b == COMMA then Virgule
    else if b == BAR then Pipe else Point
  }

  lemma MarkToken(s: Bytes, i: nat, literals: Literals)
    requires i < |s| && Mark(s[i])
    ensures SkipEnd(s, i) == i && TokenAt(s, i, literals) == Scan(MarkKind(s[i]), i + 1, [])
  {
    assert Single(s[i]) == Some(MarkKind(s[i]));
    hide NumberScan, WordScan, TextScan, SymbolScan, CommentEnd, Pair, Single, IsDigit, IsAlphaStart;
  }

  /** Punctuation is a token of its own. */
  lemma MarkThen(s: Bytes, i: nat, b: Byte, literals: Literals)
    requires i < |s| && s[i] == b && Mark(b)
    ensures ToksFrom(s, i, literals) == [Tok(MarkKind(b), [b])] + ToksFrom(s, i + 1, literals)
  {
    MarkToken(s, i, literals);
    hide PiecesFrom, SkipEnd, TokenAt, ToksFrom, Mark, MarkKind;
    PieceThen(s, i, literals);
    assert s[i..i + 1] == [b];
  }

  lemma AlphaSkipsNothing(s: Bytes, i: nat)
    requires i < |s| && (IsAlphaStart(s[i]) || IsDigit(s[i]))
    ensures SkipEnd(s, i) == i
  {}

  lemma {:induction false} IdentEndIs(s: Bytes, i: nat, w: Bytes)
    requires At(s, i, w) && (forall k | 0 <= k < |w| :: IsAlphaContinue(w[k])) && !IsAlphaContinue(Peek(s, i + |w|))
    ensures i + |w| <= |s| && IdentEnd(s, i) == i + |w|
    decreases |w|
  {
    hide IsAlphaContinue;
    AtFits(s, i, w);
    if w != [] {
      AtHead(s, i, w);
      IdentEndIs(s, i + 1, w[1..]);
    }
  }

  lemma IdentToken(s: Bytes, i: nat, w: Bytes, literals: Literals)
    requires At(s, i, w) && IsIdent(w) && !IsAlphaContinue(Peek(s, i + |w|))
    ensures i < i + |w| <= |s| && s[i..i + |w|] == w && SkipEnd(s, i) == i
    ensures TokenAt(s, i, literals) == Scan(Ident, i + |w|, [])
  {
    hide PiecesFrom, Keyword, IsWord, TokenAt, WordScan, SkipEnd, IdentEnd, IsAlphaContinue, IsAlphaStart;
    AtHead(s, i, w);
    IdentEndIs(s, i + 1, w[1..]);
    assert s[i..i + |w|] == w;
    WordIs(s, i, w);
    StartIsAlpha(s, i, literals);
    AlphaSkipsNothing(s, i);
  }

  lemma IdentThen(s: Bytes, i: nat, w: Bytes, literals: Literals)
    requires At(s, i, w) && IsIdent(w) && !IsAlphaContinue(Peek(s, i + |w|))
    ensures i + |w| <= |s| && ToksFrom(s, i, literals) == [Tok(Ident, w)] + ToksFrom(s, i + |w|, literals)
  {
    hide PiecesFrom, IsIdent, TokenAt, SkipEnd, ToksFrom, IsAlphaContinue, At;
    IdentToken(s, i, w, literals);
    PieceThen(s, i, literals);
  }

  lemma WordIs(s: Bytes, i: nat, w: Bytes)
    requires i < |s| && IdentEnd(s, i + 1) == i + |w| <= |s| && s[i..i + |w|] == w && IsIdent(w)
    ensures WordScan(s, i) == Scan(Ident, i + |w|, [])
  {
    hide Keyword, IsWord, IdentEnd, SecondWord, IsAlphaStart, IsAlphaContinue;
  }

  lemma StartIsAlpha(s: Bytes, i: nat, literals: Literals)
    requires i < |s| && IsAlphaStart(s[i])
    ensures TokenAt(s, i, literals) == WordScan(s, i)
  {
    hide WordScan;
  }

  // Names

  function Joined(parts: seq<Bytes>): Bytes
    requires parts != []
  {
    if |parts| == 1 then parts[0] else parts[0] + [DOT] + Joined(parts[1..])
  }

  lemma {:induction false} SplitJoins(name: Bytes)
    ensures Joined(Split(name)) == name
    decreases |name|
  {
    if name != [] {
      SplitJoins(name[1..]);
      var r := Split(name[1..]);
      if name[0] == DOT {
        assert ([[]] + r)[1..] == r;
      } else if |r| > 1 {
        assert ([[name[0]] + r[0]] + r[1..])[1..] == r[1..];
        assert [name[0]] + r[0] + [DOT] + Joined(r[1..]) == [name[0]] + (r[0] + [DOT] + Joined(r[1..]));
      }
      assert [name[0]] + name[1..] == name;
    }
  }

  lemma IdentHasNoDot(w: Bytes)
    requires IsIdent(w)
    ensures DOT !in w
  {
    hide Keyword, IsWord;
  }

  lemma {:induction false} SplitSnoc(name: Bytes, w: Bytes)
    requires DOT !in w
    ensures Split(name + [DOT] + w) == Split(name) + [w]
    decreases |name|
  {
    if name == [] {
      assert ([DOT] + w)[1..] == w;
      assert [] + [DOT] + w == [DOT] + w;
      SplitPlain(w);
    } else {
      SplitSnoc(name[1..], w);
      assert (name + [DOT] + w)[1..] == name[1..] + [DOT] + w;
      var r := Split(name[1..]);
      assert (r + [w])[1..] == r[1..] + [w];
    }
  }

  lemma {:induction false} SplitPlain(w: Bytes)
    requires DOT !in w
    ensures Split(w) == [w]
    decreases |w|
  {
    if w != [] {
      SplitPlain(w[1..]);
      assert [w[0]] + w[1..] == w;
    }
  }

  predicate AllIdents(parts: seq<Bytes>) {
    forall k | 0 <= k < |parts| :: IsIdent(parts[k])
  }

  lemma {:induction false} PartsThen(s: Bytes, i: nat, parts: seq<Bytes>, literals: Literals)
    requires parts != [] && AllIdents(parts) && At(s, i, Joined(parts)) && !IsAlphaContinue(Peek(s, i + |Joined(parts)|))
    ensures i + |Joined(parts)| <= |s|
    ensures ToksFrom(s, i, literals) == NameToks(parts) + ToksFrom(s, i + |Joined(parts)|, literals)
    decreases |parts|
  {
    hide IsIdent, At, ToksFrom, IsAlphaContinue;
    AtFits(s, i, Joined(parts));
    if |parts| == 1 {
      IdentThen(s, i, parts[0], literals);
    } else {
      AtThree(s, i, parts[0], [DOT], Joined(parts[1..]));
      AtByte(s, i + |parts[0]|, DOT);
      DotIsNoAlpha();
      IdentThen(s, i, parts[0], literals);
      MarkThen(s, i + |parts[0]|, DOT, literals);
      PartsThen(s, i + |parts[0]| + 1, parts[1..], literals);
      assert NameToks(parts) == [Tok(Ident, parts[0])] + ([Tok(Point, [DOT])] + NameToks(parts[1..]));
    }
  }

  lemma DotIsNoAlpha()
    ensures !IsAlphaContinue(DOT) && !IsAlphaContinue(OPEN) && !IsAlphaContinue(CLOSE) && !IsAlphaContinue(COMMA)
    ensures !IsAlphaContinue(SPACE) && !IsAlphaContinue(0)
  {}

  lemma NameThen(s: Bytes, i: nat, name: Bytes, literals: Literals)
    requires IsName(name) && At(s, i, name) && !IsAlphaContinue(Peek(s, i + |name|))
    ensures i + |name| <= |s| && ToksFrom(s, i, literals) == NameToks(Split(name)) + ToksFrom(s, i + |name|, literals)
  {
    hide IsIdent, At, ToksFrom, IsAlphaContinue, NameToks;
    SplitJoins(name);
    PartsThen(s, i, Split(name), literals);
  }

  // Numbers

  lemma {:induction false} DigitsEndIs(s: Bytes, i: nat, d: Bytes)
    requires At(s, i, d) && AllDigits(d) && !IsAlphaContinue(Peek(s, i + |d|))
    ensures i + |d| <= |s| && DigitsEnd(s, i) == i + |d|
    decreases |d|
  {
    AtFits(s, i, d);
    if d != [] {
      AtHead(s, i, d);
      DigitsEndIs(s, i + 1, d[1..]);
    }
  }

  lemma NumberThen(s: Bytes, i: nat, n: nat, literals: Literals)
    requires At(s, i, Numeral(n)) && Stops(s, i + |Numeral(n)|) && literals.fits(Numeral(n))
    ensures i + |Numeral(n)| <= |s|
    ensures ToksFrom(s, i, literals) == [Tok(EntierLit, Numeral(n))] + ToksFrom(s, i + |Numeral(n)|, literals)
  {
    hide PiecesFrom, DigitsEnd, Numeral, Natural, ToksFrom, TokenAt, SkipEnd;
    NumeralIsExact(n);
    var d := Numeral(n);
    AtHead(s, i, d);
    assert AllDigits(d[1..]);
    DigitsEndIs(s, i + 1, d[1..]);
    assert s[i..i + |d|] == d;
    NumberIs(s, i, d, literals);
    AlphaSkipsNothing(s, i);
    PieceThen(s, i, literals);
  }

  lemma NumberIs(s: Bytes, i: nat, d: Bytes, literals: Literals)
    requires i < |s| && IsDigit(s[i]) && DigitsEnd(s, i + 1) == i + |d| <= |s| && s[i..i + |d|] == d
    requires Stops(s, i + |d|) && literals.fits(d)
    ensures TokenAt(s, i, literals) == Scan(EntierLit, i + |d|, [])
  {
    hide DigitsEnd;
    NothingMore(s, i + |d|);
    DigitTokens(s, i, literals);
    hide TokenAt, FractionEnd, ExponentEnd, IsAlphaStart, Peek;
  }

  lemma NothingMore(s: Bytes, e: nat)
    requires e <= |s| && Stops(s, e)
    ensures FractionEnd(s, e) == e && ExponentEnd(s, e) == e && !IsAlphaStart(Peek(s, e))
  {
    hide DigitsEnd;
  }

  lemma DigitTokens(s: Bytes, i: nat, literals: Literals)
    requires i < |s| && IsDigit(s[i])
    ensures TokenAt(s, i, literals) == NumberScan(s, i, literals)
  {
    assert Single(s[i]) == None;
    hide NumberScan, WordScan, TextScan, SymbolScan, CommentEnd, Pair, Single, IsAlphaStart;
  }

  // Annotations

  /** What is printed is lexed to the tokens of the annotation. */
  lemma {:induction false} TypeThen(s: Bytes, i: nat, t: TypeExpr, literals: Literals)
    requires Faithful(literals) && (if t.IntegerArgument? then t.value <= MAX_LITERAL else Made(t))
    requires At(s, i, Text(t)) && Stops(s, i + |Text(t)|)
    ensures i + |Text(t)| <= |s| && ToksFrom(s, i, literals) == TypeToks(t) + ToksFrom(s, i + |Text(t)|, literals)
    decreases t, 0
  {
    hide At, ToksFrom, IsAlphaContinue, NameToks, Numeral, Split, IsName, Peek, AllArguments, AllAlternatives, ArgumentsText,
      AlternativesText, ArgumentsToks, AlternativesToks;
    match t {
      case Named(name) => NameThen(s, i, name, literals);
      case IntegerArgument(value) => NumberThen(s, i, value, literals);
      case Union(alternatives) => AlternativesThen(s, i, alternatives, literals);
      case Generic(name, arguments) => GenericThen(s, i, name, arguments, literals);
    }
  }

  lemma {:induction false} GenericThen(s: Bytes, i: nat, name: Bytes, arguments: seq<TypeExpr>, literals: Literals)
    requires Faithful(literals) && IsName(name) && arguments != [] && AllArguments(arguments)
    requires At(s, i, name + [OPEN] + ArgumentsText(arguments) + [CLOSE])
    ensures var e := i + |name| + 1 + |ArgumentsText(arguments)| + 1;
            e <= |s| && ToksFrom(s, i, literals) == TypeToks(Generic(name, arguments)) + ToksFrom(s, e, literals)
    decreases arguments, 2
  {
    hide At, ToksFrom, IsAlphaContinue, NameToks, Split, IsName, AllArguments, ArgumentsText, ArgumentsToks;
    var a := ArgumentsText(arguments);
    AtThree(s, i, name + [OPEN], a, [CLOSE]);
    AtSplit(s, i, name, [OPEN]);
    AtByte(s, i + |name|, OPEN);
    AtByte(s, i + |name| + 1 + |a|, CLOSE);
    DotIsNoAlpha();
    NameThen(s, i, name, literals);
    MarkThen(s, i + |name|, OPEN, literals);
    ArgumentsThen(s, i + |name| + 1, arguments, literals);
    MarkThen(s, i + |name| + 1 + |a|, CLOSE, literals);
    Regroup(NameToks(Split(name)), [Tok(CrochetOuv, [OPEN])], ArgumentsToks(arguments), [Tok(CrochetFerm, [CLOSE])],
            ToksFrom(s, i + |name| + 1 + |a| + 1, literals));
  }

  lemma Regroup(a: seq<Tok>, b: seq<Tok>, c: seq<Tok>, d: seq<Tok>, e: seq<Tok>)
    ensures a + (b + (c + (d + e))) == a + b + c + d + e
  {}

  lemma Regroup3(a: seq<Tok>, b: seq<Tok>, c: seq<Tok>, d: seq<Tok>)
    ensures a + (b + (c + d)) == a + (b + c) + d
  {}

  /** Arguments, up to a comma or the closing bracket. */
  lemma {:induction false} ArgumentsThen(s: Bytes, i: nat, ts: seq<TypeExpr>, literals: Literals)
    requires Faithful(literals) && ts != [] && AllArguments(ts) && At(s, i, ArgumentsText(ts))
    requires Stops(s, i + |ArgumentsText(ts)|)
    ensures var e := i + |ArgumentsText(ts)|;
            e <= |s| && ToksFrom(s, i, literals) == ArgumentsToks(ts) + ToksFrom(s, e, literals)
    decreases ts, 1
  {
    hide At, ToksFrom, IsAlphaContinue, TypeToks, Text, Made, Faithful, ArgumentsText, ArgumentsToks;
    ArgumentsSplit(ts);
    var first := Text(ts[0]);
    if |ts| == 1 {
      TypeThen(s, i, ts[0], literals);
    } else {
      AtSplit(s, i, first, [COMMA] + ArgumentsText(ts[1..]));
      AtSplit(s, i + |first|, [COMMA], ArgumentsText(ts[1..]));
      AtByte(s, i + |first|, COMMA);
      DotIsNoAlpha();
      TypeThen(s, i, ts[0], literals);
      MarkThen(s, i + |first|, COMMA, literals);
      ArgumentsThen(s, i + |first| + 1, ts[1..], literals);
      Regroup3(TypeToks(ts[0]), [Tok(Virgule, [COMMA])], ArgumentsToks(ts[1..]),
               ToksFrom(s, i + |ArgumentsText(ts)|, literals));
    }
  }

  lemma {:induction false} ArgumentsSplit(ts: seq<TypeExpr>)
    requires ts != [] && AllArguments(ts)
    ensures if ts[0].IntegerArgument? then ts[0].value <= MAX_LITERAL else Made(ts[0])
    ensures AllArguments(ts[1..])
    ensures |ts| == 1 ==> ArgumentsText(ts) == Text(ts[0]) && ArgumentsToks(ts) == TypeToks(ts[0])
    ensures |ts| > 1 ==> ArgumentsText(ts) == Text(ts[0]) + ([COMMA] + ArgumentsText(ts[1..]))
    ensures |ts| > 1 ==> ArgumentsToks(ts) == TypeToks(ts[0]) + ([Tok(Virgule, [COMMA])] + ArgumentsToks(ts[1..]))
  {
    hide Text, TypeToks, Made;
    assert Text(ts[0]) + [] == Text(ts[0]) && TypeToks(ts[0]) + [] == TypeToks(ts[0]);
  }

  lemma {:induction false} AlternativesThen(s: Bytes, i: nat, ts: seq<TypeExpr>, literals: Literals)
    requires Faithful(literals) && ts != [] && AllAlternatives(ts) && At(s, i, AlternativesText(ts))
    requires Stops(s, i + |AlternativesText(ts)|)
    ensures var e := i + |AlternativesText(ts)|;
            e <= |s| && ToksFrom(s, i, literals) == AlternativesToks(ts) + ToksFrom(s, e, literals)
    decreases ts, 1
  {
    hide At, ToksFrom, IsAlphaContinue, TypeToks, Text, Faithful, AlternativesText, AlternativesToks;
    AlternativesSplit(ts);
    MadeIsNoInteger(ts[0]);
    hide Made;
    var first := Text(ts[0]);
    if |ts| == 1 {
      TypeThen(s, i, ts[0], literals);
    } else {
      var p := i + |first|;
      var bar := [SPACE, BAR, SPACE];
      AtSplit(s, i, first, bar + AlternativesText(ts[1..]));
      AtSplit(s, p, bar, AlternativesText(ts[1..]));
      AtIndex(s, p, bar, 0);
      AtIndex(s, p, bar, 1);
      AtIndex(s, p, bar, 2);
      DotIsNoAlpha();
      TypeThen(s, i, ts[0], literals);
      SpaceThen(s, p, literals);
      MarkThen(s, p + 1, BAR, literals);
      SpaceThen(s, p + 2, literals);
      AlternativesThen(s, p + 3, ts[1..], literals);
      Regroup3(TypeToks(ts[0]), [Tok(Pipe, [BAR])], AlternativesToks(ts[1..]),
               ToksFrom(s, i + |AlternativesText(ts)|, literals));
    }
  }

  lemma {:induction false} AlternativesSplit(ts: seq<TypeExpr>)
    requires ts != [] && AllAlternatives(ts)
    ensures Made(ts[0]) && !ts[0].Union? && AllAlternatives(ts[1..])
    ensures |ts| == 1 ==> AlternativesText(ts) == Text(ts[0]) && AlternativesToks(ts) == TypeToks(ts[0])
    ensures |ts| > 1 ==> AlternativesText(ts) == Text(ts[0]) + ([SPACE, BAR, SPACE] + AlternativesText(ts[1..]))
    ensures |ts| > 1 ==> AlternativesToks(ts) == TypeToks(ts[0]) + ([Tok(Pipe, [BAR])] + AlternativesToks(ts[1..]))
  {
    hide Text, TypeToks, Made;
    assert Text(ts[0]) + [] == Text(ts[0]) && TypeToks(ts[0]) + [] == TypeToks(ts[0]);
  }

  lemma MadeIsNoInteger(t: TypeExpr)
    requires Made(t)
    ensures !t.IntegerArgument?
  {}

  // Reading the tokens of an annotation

  /** Some tokens stand among others. */
  ghost predicate Holds(ts: seq<Tok>, i: nat, part: seq<Tok>) {
    i + |part| <= |ts| && ts[i..i + |part|] == part
  }

  lemma HoldsSplit(ts: seq<Tok>, i: nat, a: seq<Tok>, b: seq<Tok>)
    requires Holds(ts, i, a + b)
    ensures Holds(ts, i, a) && Holds(ts, i + |a|, b)
  {
    var part := ts[i..i + |a + b|];
    assert part == ts[i..i + |a|] + ts[i + |a|..i + |a| + |b|];
    assert part[..|a|] == a && part[|a|..] == b;
  }

  lemma HoldsAt(ts: seq<Tok>, i: nat, part: seq<Tok>, k: nat)
    requires Holds(ts, i, part) && k < |part|
    ensures i + k < |ts| && ts[i + k] == part[k] && KindAt(ts, i + k) == part[k].kind
  {
    assert ts[i..i + |part|][k] == part[k];
  }

  /** What may follow an alternative of a union. */
  predicate Ends(ts: seq<Tok>, i: nat) {
    KindAt(ts, i) != Point && KindAt(ts, i) != CrochetOuv
  }

  /** Where an annotation can end: after a name, a dot or a bracket would belong to it. */
  predicate Bounded(ts: seq<Tok>, i: nat, t: TypeExpr)
    decreases t
  {
    match t
    case Named(_) => Ends(ts, i)
    case Union(alternatives) => alternatives != [] && Bounded(ts, i, alternatives[|alternatives| - 1])
    case _ => true
  }

  lemma {:induction false} EndIsBound(ts: seq<Tok>, i: nat, t: TypeExpr)
    requires Ends(ts, i) && (t.IntegerArgument? || Made(t))
    ensures Bounded(ts, i, t)
    decreases t
  {
    hide IsName, AllArguments;
    if t.Union? {
      var n := |t.alternatives| - 1;
      AlternativeAt(t.alternatives, n);
      EndIsBound(ts, i, t.alternatives[n]);
    }
  }

  lemma {:induction false} AlternativeAt(xs: seq<TypeExpr>, k: nat)
    requires AllAlternatives(xs) && k < |xs|
    ensures Made(xs[k]) && !xs[k].Union?
    decreases k
  {
    hide Made;
    if k > 0 {
      AlternativeAt(xs[1..], k - 1);
    }
  }

  function JoinedTo(name: Bytes, parts: seq<Bytes>): Bytes
    decreases |parts|
  {
    if parts == [] then name else JoinedTo(name + [DOT] + parts[0], parts[1..])
  }

  lemma {:induction false} JoinedToIs(name: Bytes, parts: seq<Bytes>)
    ensures JoinedTo(name, parts) == Joined([name] + parts)
    decreases |parts|
  {
    if parts != [] {
      JoinedToIs(name + [DOT] + parts[0], parts[1..]);
      assert ([name] + parts)[1..] == parts;
      var more := [name + [DOT] + parts[0]] + parts[1..];
      assert more[1..] == parts[1..];
      if |parts| > 1 {
        assert name + [DOT] + parts[0] + [DOT] + Joined(parts[1..]) == name + [DOT] + (parts[0] + [DOT] + Joined(parts[1..]));
      }
    }
  }

  lemma {:induction false} RestIsRead(ts: seq<Tok>, i: nat, name: Bytes, parts: seq<Bytes>)
    requires Holds(ts, i, RestToks(parts)) && KindAt(ts, i + |RestToks(parts)|) != Point
    ensures NameRest(ts, i, name) == Parsed(JoinedTo(name, parts), i + |RestToks(parts)|)
    decreases |parts|
  {
    if parts != [] {
      hide Holds;
      HoldsSplit(ts, i, [Tok(Point, [DOT]), Tok(Ident, parts[0])], RestToks(parts[1..]));
      HoldsAt(ts, i, [Tok(Point, [DOT]), Tok(Ident, parts[0])], 0);
      HoldsAt(ts, i, [Tok(Point, [DOT]), Tok(Ident, parts[0])], 1);
      RestIsRead(ts, i + 2, name + [DOT] + parts[0], parts[1..]);
    }
  }

  lemma NameIsRead(ts: seq<Tok>, i: nat, name: Bytes)
    requires Holds(ts, i, NameToks(Split(name))) && KindAt(ts, i + |NameToks(Split(name))|) != Point
    ensures KindAt(ts, i) == Ident && i < |ts|
    ensures NameRest(ts, i + 1, ts[i].lexeme) == Parsed(name, i + |NameToks(Split(name))|)
  {
    hide Holds, Split, JoinedTo, Joined, RestToks, NameRest;
    var parts := Split(name);
    HoldsSplit(ts, i, [Tok(Ident, parts[0])], RestToks(parts[1..]));
    HoldsAt(ts, i, [Tok(Ident, parts[0])], 0);
    RestIsRead(ts, i + 1, parts[0], parts[1..]);
    JoinedToIs(parts[0], parts[1..]);
    SplitJoins(name);
    assert [parts[0]] + parts[1..] == parts;
  }

  lemma {:induction false} LeadingSnoc(d: Bytes, x: Byte, v: nat)
    requires AllDigits(d) && IsDigit(x)
    ensures LeadingNumber(d + [x], v) == LeadingNumber(d, v) * 10 + (x - 0x30)
    decreases |d|
  {
    if d == [] {
      assert [] + [x] == [x] && [x][1..] == [];
    } else {
      assert (d + [x])[1..] == d[1..] + [x];
      LeadingSnoc(d[1..], x, v * 10 + (d[0] - 0x30));
    }
  }

  lemma {:induction false} LeadingIsNatural(d: Bytes)
    requires AllDigits(d)
    ensures LeadingNumber(d, 0) == Natural(d)
    decreases |d|
  {
    if d != [] {
      var n := |d| - 1;
      assert d == d[..n] + [d[n]];
      LeadingIsNatural(d[..n]);
      LeadingSnoc(d[..n], d[n], 0);
    }
  }

  // One step of each parsing function

  lemma GenericStep(ts: seq<Tok>, i: nat, name: Bytes, at: nat)
    requires KindAt(ts, i) == Ident && NameRest(ts, i + 1, ts[i].lexeme) == Parsed(name, at)
    ensures KindAt(ts, at) != CrochetOuv ==> ParseGeneric(ts, i) == Parsed(Named(name), at)
    ensures KindAt(ts, at) == CrochetOuv && KindAt(ts, at + 1) != CrochetFerm && ParseArguments(ts, at + 1, []).Parsed? ==>
              ParseGeneric(ts, i) ==
              Parsed(Generic(name, ParseArguments(ts, at + 1, []).value), ParseArguments(ts, at + 1, []).at)
  {
    hide NameRest, ParseArguments;
  }

  /** An argument stands at `i` and ends at `at`. */
  predicate ArgumentAt(ts: seq<Tok>, i: nat, t: TypeExpr, at: nat) {
    if KindAt(ts, i) == EntierLit then
      at == i + 1 && LeadingNumber(ts[i].lexeme, 0) <= MAX_ARGUMENT && t == IntegerArgument(LeadingNumber(ts[i].lexeme, 0))
    else ParseUnion(ts, i) == Parsed(t, at)
  }

  lemma ArgumentsStep(ts: seq<Tok>, i: nat, done: seq<TypeExpr>, t: TypeExpr, at: nat)
    requires ArgumentAt(ts, i, t, at)
    ensures KindAt(ts, at) == CrochetFerm ==> ParseArguments(ts, i, done) == Parsed(done + [t], at + 1)
    ensures KindAt(ts, at) == Virgule && KindAt(ts, at + 1) != CrochetFerm ==>
              ParseArguments(ts, i, done) == ParseArguments(ts, at + 1, done + [t])
  {
    hide ParseUnion, LeadingNumber;
  }

  lemma UnionStep(ts: seq<Tok>, i: nat, t: TypeExpr, at: nat)
    requires ParseGeneric(ts, i) == Parsed(t, at)
    ensures KindAt(ts, at) != Pipe ==> ParseUnion(ts, i) == Parsed(t, at)
    ensures KindAt(ts, at) == Pipe && ParseAlternatives(ts, at, [t]).Parsed? ==>
              ParseUnion(ts, i) == Parsed(Union(ParseAlternatives(ts, at, [t]).value), ParseAlternatives(ts, at, [t]).at)
  {
    hide ParseGeneric, ParseAlternatives;
  }

  lemma AlternativesStep(ts: seq<Tok>, i: nat, done: seq<TypeExpr>, t: TypeExpr, at: nat)
    requires i < |ts| && KindAt(ts, i) == Pipe && ParseGeneric(ts, i + 1) == Parsed(t, at)
    ensures at <= |ts| && ParseAlternatives(ts, i, done) == ParseAlternatives(ts, at, done + [t])
  {
    hide ParseGeneric;
  }

  lemma AlternativesEnd(ts: seq<Tok>, i: nat, done: seq<TypeExpr>)
    requires i <= |ts| && KindAt(ts, i) != Pipe
    ensures ParseAlternatives(ts, i, done) == Parsed(done, i)
  {}

  // One step of the tokens

  lemma {:induction false} ArgumentsToksStep(ts: seq<Tok>, i: nat, xs: seq<TypeExpr>)
    requires xs != [] && AllArguments(xs) && Holds(ts, i, ArgumentsToks(xs))
    ensures if xs[0].IntegerArgument? then xs[0].value <= MAX_LITERAL else Made(xs[0])
    ensures Holds(ts, i, TypeToks(xs[0])) && AllArguments(xs[1..])
    ensures if |xs| == 1 then ArgumentsToks(xs) == TypeToks(xs[0])
            else && KindAt(ts, i + |TypeToks(xs[0])|) == Virgule
                 && Holds(ts, i + |TypeToks(xs[0])| + 1, ArgumentsToks(xs[1..]))
                 && |ArgumentsToks(xs)| == |TypeToks(xs[0])| + 1 + |ArgumentsToks(xs[1..])|
  {
    hide Holds, TypeToks, Made, KindAt, ParseUnion, ParseArguments, ArgumentsToks, ArgumentsText;
    ArgumentsSplit(xs);
    if |xs| > 1 {
      var comma := [Tok(Virgule, [COMMA])];
      HoldsSplit(ts, i, TypeToks(xs[0]), comma + ArgumentsToks(xs[1..]));
      HoldsSplit(ts, i + |TypeToks(xs[0])|, comma, ArgumentsToks(xs[1..]));
      HoldsAt(ts, i + |TypeToks(xs[0])|, comma, 0);
    }
  }

  lemma {:induction false} AlternativesToksStep(ts: seq<Tok>, i: nat, xs: seq<TypeExpr>)
    requires xs != [] && AllAlternatives(xs) && Holds(ts, i, AlternativesToks(xs))
    ensures Made(xs[0]) && !xs[0].Union? && Holds(ts, i, TypeToks(xs[0])) && AllAlternatives(xs[1..])
    ensures if |xs| == 1 then AlternativesToks(xs) == TypeToks(xs[0])
            else && i + |TypeToks(xs[0])| < |ts| && KindAt(ts, i + |TypeToks(xs[0])|) == Pipe
                 && Holds(ts, i + |TypeToks(xs[0])| + 1, AlternativesToks(xs[1..]))
                 && |AlternativesToks(xs)| == |TypeToks(xs[0])| + 1 + |AlternativesToks(xs[1..])|
  {
    hide Holds, TypeToks, Made, AlternativesToks, AlternativesText;
    AlternativesSplit(xs);
    if |xs| > 1 {
      var bar := [Tok(Pipe, [BAR])];
      HoldsSplit(ts, i, TypeToks(xs[0]), bar + AlternativesToks(xs[1..]));
      HoldsSplit(ts, i + |TypeToks(xs[0])|, bar, AlternativesToks(xs[1..]));
      HoldsAt(ts, i + |TypeToks(xs[0])|, bar, 0);
    }
  }

  lemma GenericToksStep(ts: seq<Tok>, i: nat, name: Bytes, xs: seq<TypeExpr>)
    requires Holds(ts, i, TypeToks(Generic(name, xs)))
    ensures var n, a := NameToks(Split(name)), ArgumentsToks(xs);
            && Holds(ts, i, n) && KindAt(ts, i + |n|) == CrochetOuv && Holds(ts, i + |n| + 1, a)
            && KindAt(ts, i + |n| + 1 + |a|) == CrochetFerm && |TypeToks(Generic(name, xs))| == |n| + 1 + |a| + 1
  {
    hide Holds, NameToks, Split, ArgumentsToks;
    var n, a := NameToks(Split(name)), ArgumentsToks(xs);
    var open, close := [Tok(CrochetOuv, [OPEN])], [Tok(CrochetFerm, [CLOSE])];
    HoldsSplit(ts, i, n + open + a, close);
    HoldsSplit(ts, i, n + open, a);
    HoldsSplit(ts, i, n, open);
    HoldsAt(ts, i + |n|, open, 0);
    HoldsAt(ts, i + |n| + 1 + |a|, close, 0);
  }

  lemma {:induction false} TypeIsRead(ts: seq<Tok>, i: nat, t: TypeExpr)
    requires Made(t) && Holds(ts, i, TypeToks(t)) && Bounded(ts, i + |TypeToks(t)|, t)
    ensures !t.Union? ==> ParseGeneric(ts, i) == Parsed(t, i + |TypeToks(t)|)
    ensures KindAt(ts, i + |TypeToks(t)|) != Pipe ==> ParseUnion(ts, i) == Parsed(t, i + |TypeToks(t)|)
    decreases t, 0
  {
    hide Holds, NameToks, Split, IsName, NameRest, ArgumentsToks, AlternativesToks, AllArguments, AllAlternatives, ParseGeneric,
      ParseUnion, KindAt, Ends;
    match t {
      case Named(name) =>
        NamedIsRead(ts, i, name);
        UnionStep(ts, i, t, i + |TypeToks(t)|);
      case Generic(name, arguments) =>
        GenericIsRead(ts, i, name, arguments);
        UnionStep(ts, i, t, i + |TypeToks(t)|);
      case Union(alternatives) =>
        if KindAt(ts, i + |TypeToks(t)|) != Pipe {
          UnionIsRead(ts, i, alternatives);
        }
    }
  }

  lemma NamedIsRead(ts: seq<Tok>, i: nat, name: Bytes)
    requires Holds(ts, i, TypeToks(Named(name))) && Ends(ts, i + |TypeToks(Named(name))|)
    ensures ParseGeneric(ts, i) == Parsed(Named(name), i + |TypeToks(Named(name))|)
  {
    hide Holds, NameToks, Split, NameRest, ParseGeneric, KindAt;
    NameIsRead(ts, i, name);
    GenericStep(ts, i, name, i + |TypeToks(Named(name))|);
  }

  lemma {:induction false} GenericIsRead(ts: seq<Tok>, i: nat, name: Bytes, arguments: seq<TypeExpr>)
    requires arguments != [] && AllArguments(arguments) && Holds(ts, i, TypeToks(Generic(name, arguments)))
    ensures ParseGeneric(ts, i) == Parsed(Generic(name, arguments), i + |TypeToks(Generic(name, arguments))|)
    decreases arguments, 2
  {
    hide Holds, NameToks, Split, NameRest, ArgumentsToks, AllArguments, ParseArguments, ParseGeneric, TypeToks;
    GenericToksStep(ts, i, name, arguments);
    var at := i + |NameToks(Split(name))|;
    NameIsRead(ts, i, name);
    ArgumentsAreRead(ts, at + 1, arguments, []);
    GenericStep(ts, i, name, at);
    assert [] + arguments == arguments;
  }

  lemma TypeStarts(t: TypeExpr)
    requires t.IntegerArgument? || Made(t)
    ensures TypeToks(t) != [] && TypeToks(t)[0].kind == if t.IntegerArgument? then EntierLit else Ident
    decreases t
  {
    hide Split, IsName, AllArguments, ArgumentsToks;
    if t.Union? {
      TypeStarts(t.alternatives[0]);
    }
  }

  lemma {:induction false} ArgumentsAreRead(ts: seq<Tok>, i: nat, arguments: seq<TypeExpr>, done: seq<TypeExpr>)
    requires arguments != [] && AllArguments(arguments) && Holds(ts, i, ArgumentsToks(arguments))
    requires KindAt(ts, i + |ArgumentsToks(arguments)|) == CrochetFerm
    ensures KindAt(ts, i) != CrochetFerm
    ensures ParseArguments(ts, i, done) == Parsed(done + arguments, i + |ArgumentsToks(arguments)| + 1)
    decreases arguments, 1
  {
    hide Holds, TypeToks, Made, ParseUnion, ParseArguments, ArgumentsToks, ArgumentAt, AllArguments;
    ArgumentsToksStep(ts, i, arguments);
    var t := arguments[0];
    var at := i + |TypeToks(t)|;
    ArgumentIsRead(ts, i, t);
    ArgumentsStep(ts, i, done, t, at);
    if |arguments| == 1 {
      assert done + [t] == done + arguments;
    } else {
      ArgumentsAreRead(ts, at + 1, arguments[1..], done + [t]);
      assert done + [t] + arguments[1..] == done + arguments;
    }
  }

  lemma {:induction false} ArgumentIsRead(ts: seq<Tok>, i: nat, t: TypeExpr)
    requires if t.IntegerArgument? then t.value <= MAX_LITERAL else Made(t)
    requires Holds(ts, i, TypeToks(t)) && (KindAt(ts, i + |TypeToks(t)|) == CrochetFerm || KindAt(ts, i + |TypeToks(t)|) == Virgule)
    ensures KindAt(ts, i) != CrochetFerm && ArgumentAt(ts, i, t, i + |TypeToks(t)|)
    decreases t, 1
  {
    hide Holds, Made, ParseUnion, LeadingNumber, Numeral, TypeToks;
    TypeStarts(t);
    HoldsAt(ts, i, TypeToks(t), 0);
    if t.IntegerArgument? {
      NumberToks(t.value);
      NumeralIsExact(t.value);
      LeadingIsNatural(Numeral(t.value));
    } else {
      EndIsBound(ts, i + |TypeToks(t)|, t);
      TypeIsRead(ts, i, t);
    }
  }

  lemma NumberToks(n: nat)
    ensures TypeToks(IntegerArgument(n)) == [Tok(EntierLit, Numeral(n))]
  {}

  lemma {:induction false} UnionIsRead(ts: seq<Tok>, i: nat, alternatives: seq<TypeExpr>)
    requires |alternatives| >= 2 && AllAlternatives(alternatives) && Holds(ts, i, AlternativesToks(alternatives))
    requires Bounded(ts, i + |AlternativesToks(alternatives)|, alternatives[|alternatives| - 1])
    requires KindAt(ts, i + |AlternativesToks(alternatives)|) != Pipe
    ensures ParseUnion(ts, i) == Parsed(Union(alternatives), i + |AlternativesToks(alternatives)|)
    decreases alternatives, 2
  {
    hide Holds, TypeToks, Made, ParseGeneric, ParseAlternatives, ParseUnion, AlternativesToks, AllAlternatives, Bounded, Ends, KindAt;
    AlternativesToksStep(ts, i, alternatives);
    var t := alternatives[0];
    var at := i + |TypeToks(t)|;
    PipeEnds(ts, at);
    EndIsBound(ts, at, t);
    TypeIsRead(ts, i, t);
    AlternativesAreRead(ts, at, alternatives[1..], [t]);
    UnionStep(ts, i, t, at);
    assert [t] + alternatives[1..] == alternatives;
  }

  lemma PipeEnds(ts: seq<Tok>, i: nat)
    requires KindAt(ts, i) == Pipe || KindAt(ts, i) == Virgule || KindAt(ts, i) == CrochetFerm
    ensures Ends(ts, i)
  {}

  lemma OneMore(done: seq<TypeExpr>, rest: seq<TypeExpr>)
    requires rest != []
    ensures done + [rest[0]] + rest[1..] == done + rest && (|rest| == 1 ==> done + [rest[0]] == done + rest)
  {}

  /** One alternative after a bar; what follows is another bar or what follows the union. */
  lemma {:induction false} AlternativeIsRead(ts: seq<Tok>, i: nat, rest: seq<TypeExpr>, done: seq<TypeExpr>)
    requires rest != [] && AllAlternatives(rest) && i < |ts| && KindAt(ts, i) == Pipe && Holds(ts, i + 1, AlternativesToks(rest))
    requires Bounded(ts, i + 1 + |AlternativesToks(rest)|, rest[|rest| - 1])
    ensures i + 1 + |TypeToks(rest[0])| <= |ts|
    ensures ParseAlternatives(ts, i, done) == ParseAlternatives(ts, i + 1 + |TypeToks(rest[0])|, done + [rest[0]])
    decreases rest, 0
  {
    hide Holds, TypeToks, Made, ParseGeneric, ParseAlternatives, AlternativesToks, AllAlternatives, ParseUnion, KindAt, Ends;
    AlternativesToksStep(ts, i + 1, rest);
    var at := i + 1 + |TypeToks(rest[0])|;
    if |rest| > 1 {
      PipeEnds(ts, at);
      EndIsBound(ts, at, rest[0]);
    }
    TypeIsRead(ts, i + 1, rest[0]);
    AlternativesStep(ts, i, done, rest[0], at);
  }

  /** The alternatives after a bar. */
  lemma {:induction false} AlternativesAreRead(ts: seq<Tok>, i: nat, rest: seq<TypeExpr>, done: seq<TypeExpr>)
    requires rest != [] && AllAlternatives(rest) && i < |ts| && KindAt(ts, i) == Pipe && Holds(ts, i + 1, AlternativesToks(rest))
    requires Bounded(ts, i + 1 + |AlternativesToks(rest)|, rest[|rest| - 1])
    requires KindAt(ts, i + 1 + |AlternativesToks(rest)|) != Pipe
    ensures ParseAlternatives(ts, i, done) == Parsed(done + rest, i + 1 + |AlternativesToks(rest)|)
    decreases rest, 1
  {
    hide Holds, TypeToks, Made, ParseAlternatives, AlternativesToks, AllAlternatives, KindAt, Ends;
    AlternativeIsRead(ts, i, rest, done);
    AlternativesToksStep(ts, i + 1, rest);
    OneMore(done, rest);
    var at := i + 1 + |TypeToks(rest[0])|;
    if |rest| == 1 {
      AlternativesEnd(ts, at, done + [rest[0]]);
    } else {
      AlternativesAreRead(ts, at, rest[1..], done + [rest[0]]);
    }
  }

  /** Printing, lexing and parsing: the annotation is back, and the end of the text is all
      that is left. */
  lemma PrintedIsParsed(t: TypeExpr, literals: Literals)
    requires Made(t) && Faithful(literals)
    ensures var ts := ToksFrom(Text(t), 0, literals);
            ParseUnion(ts, 0) == Parsed(t, |ts| - 1) && KindAt(ts, |ts| - 1) == FinFichier
  {
    hide TypeToks, Faithful, ParseUnion, Text, ToksFrom;
    var s := Text(t);
    MadeIsNoInteger(t);
    hide Made;
    assert At(s, 0, s) && Stops(s, |s|) by { assert s[0..|s|] == s; }
    TypeThen(s, 0, t, literals);
    EndTok(s, literals);
    var ts := ToksFrom(s, 0, literals);
    assert ts[0..0 + |TypeToks(t)|] == TypeToks(t);
    assert ts[|TypeToks(t)|].kind == FinFichier;
    EndIsBound(ts, |TypeToks(t)|, t);
    TypeIsRead(ts, 0, t);
  }

  lemma EndTok(s: Bytes, literals: Literals)
    ensures |ToksFrom(s, |s|, literals)| == 1 && ToksFrom(s, |s|, literals)[0].kind == FinFichier
  {}

  // What the parser makes

  /** Identifiers are identifiers, and integers fit. */
  ghost predicate Lexed(ts: seq<Tok>) {
    forall k | 0 <= k < |ts| ::
      (ts[k].kind == Ident ==> IsIdent(ts[k].lexeme)) && (ts[k].kind == EntierLit ==> LeadingNumber(ts[k].lexeme, 0) <= MAX_LITERAL)
  }

  lemma {:induction false} NameIsMade(ts: seq<Tok>, i: nat, name: Bytes)
    requires Lexed(ts) && IsName(name) && NameRest(ts, i, name).Parsed?
    ensures IsName(NameRest(ts, i, name).value)
    decreases |ts| - i
  {
    hide IsIdent, Split;
    if KindAt(ts, i) == Point {
      var w := ts[i + 1].lexeme;
      IdentHasNoDot(w);
      SplitSnoc(name, w);
      NameIsMade(ts, i + 2, name + [DOT] + w);
    }
  }

  lemma IdentIsName(w: Bytes)
    requires IsIdent(w)
    ensures IsName(w)
  {
    hide IsIdent;
    IdentHasNoDot(w);
    SplitPlain(w);
  }

  /** Whatever the parser makes of lexed tokens is well made. */
  lemma {:induction false} GenericIsMade(ts: seq<Tok>, i: nat)
    requires Lexed(ts) && ParseGeneric(ts, i).Parsed?
    ensures Made(ParseGeneric(ts, i).value) && !ParseGeneric(ts, i).value.Union?
    decreases |ts| - i, 1
  {
    hide IsIdent, IsName, ParseArguments, AllArguments, NameRest;
    IdentIsName(ts[i].lexeme);
    NameIsMade(ts, i + 1, ts[i].lexeme);
    var n := NameRest(ts, i + 1, ts[i].lexeme);
    if KindAt(ts, n.at) == CrochetOuv {
      assert AllArguments([]) by { NothingMade(); }
      ArgumentsAreMade(ts, n.at + 1, []);
    }
  }

  lemma NothingMade()
    ensures AllArguments([]) && AllAlternatives([])
  {}

  lemma {:induction false} ArgumentsSnoc(done: seq<TypeExpr>, t: TypeExpr)
    requires AllArguments(done) && (if t.IntegerArgument? then t.value <= MAX_LITERAL else Made(t))
    ensures AllArguments(done + [t])
    decreases |done|
  {
    hide Made;
    if done == [] {
      assert [] + [t] == [t] && [t][1..] == [];
    } else {
      ArgumentsSnoc(done[1..], t);
      assert (done + [t])[1..] == done[1..] + [t];
    }
  }

  lemma {:induction false} AlternativesSnoc(done: seq<TypeExpr>, t: TypeExpr)
    requires AllAlternatives(done) && Made(t) && !t.Union?
    ensures AllAlternatives(done + [t])
    decreases |done|
  {
    hide Made;
    if done == [] {
      assert [] + [t] == [t] && [t][1..] == [];
    } else {
      AlternativesSnoc(done[1..], t);
      assert (done + [t])[1..] == done[1..] + [t];
    }
  }

  /** What one step over the arguments did. */
  lemma ArgumentBack(ts: seq<Tok>, i: nat, done: seq<TypeExpr>) returns (t: TypeExpr, at: nat)
    requires ParseArguments(ts, i, done).Parsed?
    ensures i < at && ArgumentAt(ts, i, t, at)
    ensures ParseArguments(ts, i, done) == Parsed(done + [t], at + 1) ||
            (KindAt(ts, at) == Virgule && ParseArguments(ts, i, done) == ParseArguments(ts, at + 1, done + [t]))
  {
    hide ParseUnion, LeadingNumber;
    if KindAt(ts, i) == EntierLit {
      t, at := IntegerArgument(LeadingNumber(ts[i].lexeme, 0)), i + 1;
    } else {
      t, at := ParseUnion(ts, i).value, ParseUnion(ts, i).at;
    }
  }

  lemma {:induction false} ArgumentsAreMade(ts: seq<Tok>, i: nat, done: seq<TypeExpr>)
    requires Lexed(ts) && AllArguments(done) && ParseArguments(ts, i, done).Parsed?
    ensures AllArguments(ParseArguments(ts, i, done).value) && ParseArguments(ts, i, done).value != []
    decreases |ts| - i, 3
  {
    hide IsIdent, AllArguments, ParseUnion, Made, LeadingNumber, ParseArguments;
    var t, at := ArgumentBack(ts, i, done);
    if KindAt(ts, i) != EntierLit {
      UnionIsMade(ts, i);
      MadeIsNoInteger(t);
    }
    ArgumentsSnoc(done, t);
    if ParseArguments(ts, i, done) != Parsed(done + [t], at + 1) {
      ArgumentsAreMade(ts, at + 1, done + [t]);
    }
  }

  lemma {:induction false} UnionIsMade(ts: seq<Tok>, i: nat)
    requires Lexed(ts) && ParseUnion(ts, i).Parsed?
    ensures Made(ParseUnion(ts, i).value)
    decreases |ts| - i, 2
  {
    hide Lexed, ParseGeneric, ParseAlternatives, AllAlternatives;
    GenericIsMade(ts, i);
    var first := ParseGeneric(ts, i);
    if KindAt(ts, first.at) == Pipe {
      NothingMade();
      AlternativesSnoc([], first.value);
      assert [] + [first.value] == [first.value];
      AlternativesAreMade(ts, first.at, [first.value]);
    }
  }

  lemma {:induction false} AlternativesAreMade(ts: seq<Tok>, i: nat, done: seq<TypeExpr>)
    requires Lexed(ts) && i <= |ts| && AllAlternatives(done) && ParseAlternatives(ts, i, done).Parsed?
    ensures var r := ParseAlternatives(ts, i, done).value;
            AllAlternatives(r) && |r| >= |done| + if KindAt(ts, i) == Pipe then 1 else 0
    decreases |ts| - i, 0
  {
    hide Lexed, ParseGeneric, AllAlternatives, Made;
    if KindAt(ts, i) == Pipe {
      GenericIsMade(ts, i + 1);
      var next := ParseGeneric(ts, i + 1);
      AlternativesSnoc(done, next.value);
      AlternativesAreMade(ts, next.at, done + [next.value]);
    }
  }

  // The tokens of a text are lexed

  lemma TokenIsLexed(s: Bytes, i: nat, literals: Literals)
    requires i < |s| && Faithful(literals)
    ensures var t := TokenAt(s, i, literals);
            && (t.kind == Ident ==> IsIdent(s[i..t.end]))
            && (t.kind == EntierLit ==> LeadingNumber(s[i..t.end], 0) <= MAX_LITERAL)
  {
    hide WordScan, NumberScan, TextScan, SymbolScan, CommentEnd, IsIdent, LeadingNumber, Keyword;
    if IsAlphaStart(s[i]) {
      StartIsAlpha(s, i, literals);
      WordIsLexed(s, i);
    } else if IsDigit(s[i]) {
      NumberIsLexed(s, i, literals);
    }
  }

  lemma WordIsLexed(s: Bytes, i: nat)
    requires i < |s| && IsAlphaStart(s[i])
    ensures WordScan(s, i).kind == Ident ==> IsIdent(s[i..WordScan(s, i).end])
    ensures WordScan(s, i).kind != EntierLit
  {
    AlphaGoesOn();
    hide Keyword, IsWord, BlanksEnd, Stands, IsAlphaContinue, IsAlphaStart;
  }

  lemma NumberIsLexed(s: Bytes, i: nat, literals: Literals)
    requires i < |s| && Faithful(literals)
    ensures var t := NumberScan(s, i, literals);
            t.kind != Ident && (t.kind == EntierLit ==> LeadingNumber(s[i..t.end], 0) <= MAX_LITERAL)
  {
    hide DigitsEnd, FractionEnd, ExponentEnd, LeadingNumber;
  }

  lemma AlphaGoesOn()
    ensures forall b | IsAlphaStart(b) :: IsAlphaContinue(b)
  {}

  lemma {:induction false} ToksAreLexed(s: Bytes, i: nat, literals: Literals)
    requires i <= |s| && Faithful(literals)
    ensures Lexed(ToksFrom(s, i, literals))
    decreases |s| - i
  {
    hide TokenAt, SkipEnd, IsIdent, LeadingNumber, Faithful;
    var start := SkipEnd(s, i);
    if start < |s| {
      TokenIsLexed(s, start, literals);
      ToksAreLexed(s, TokenAt(s, start, literals).end, literals);
      assert ToksFrom(s, i, literals) ==
        [Tok(TokenAt(s, start, literals).kind, s[start..TokenAt(s, start, literals).end])] + ToksFrom(s, TokenAt(s, start, literals).end, literals);
    }
  }

  /** The round trip: an annotation read from any text, printed and read again, is itself. */
  lemma ParsedIsPrintedAndParsed(s: Bytes, i: nat, literals: Literals)
    requires Faithful(literals) && ParseUnion(ToksFrom(s, 0, literals), i).Parsed?
    ensures var t := ParseUnion(ToksFrom(s, 0, literals), i).value;
            var again := ToksFrom(Text(t), 0, literals);
            Made(t) && ParseUnion(again, 0) == Parsed(t, |again| - 1)
  {
    hide ToksFrom, Faithful, ParseUnion, Made, Text, Lexed;
    ToksAreLexed(s, 0, literals);
    UnionIsMade(ToksFrom(s, 0, literals), i);
    PrintedIsParsed(ParseUnion(ToksFrom(s, 0, literals), i).value, literals);
  }
}
