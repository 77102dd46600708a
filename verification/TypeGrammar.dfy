/** Which tokens the parser takes for an annotation: exactly those that write it, up to the
    spelling of punctuation and of integers, where it can end.
 */
module TypeGrammar {
  import opened Utf8
  import opened Numerals
  import opened Lexing
  import opened TypeAnnotations
  import opened TypeRoundTrip

  // Spelling

  /** The token in its plain spelling: an integer without what the parser does not read. */
  function Plainly(t: Tok): Tok {
    match t.kind
    case Point => Tok(Point, [DOT])
    case CrochetOuv => Tok(CrochetOuv, [OPEN])
    case CrochetFerm => Tok(CrochetFerm, [CLOSE])
    case Virgule => Tok(Virgule, [COMMA])
    case Pipe => Tok(Pipe, [BAR])
    case EntierLit => Tok(EntierLit, Numeral(LeadingNumber(t.lexeme, 0)))
    case _ => t
  }

  function Spelled(ts: seq<Tok>): (r: seq<Tok>)
    ensures |r| == |ts| && forall k | 0 <= k < |ts| :: r[k] == Plainly(ts[k])
  {
    seq(|ts|, k requires 0 <= k < |ts| => Plainly(ts[k]))
  }

  lemma KindIsSpelled(ts: seq<Tok>, i: nat)
    ensures KindAt(Spelled(ts), i) == KindAt(ts, i)
    ensures KindAt(ts, i) == Ident ==> i < |ts| && Spelled(ts)[i].lexeme == ts[i].lexeme
    ensures KindAt(ts, i) == EntierLit ==>
              i < |ts| && LeadingNumber(Spelled(ts)[i].lexeme, 0) == LeadingNumber(ts[i].lexeme, 0)
  {
    hide LeadingNumber, Numeral, Natural, AllDigits;
    if KindAt(ts, i) == EntierLit {
      var n := LeadingNumber(ts[i].lexeme, 0);
      NumeralIsExact(n);
      LeadingIsNatural(Numeral(n));
    }
  }

  lemma NameRestIs(ts: seq<Tok>, i: nat, name: Bytes)
    ensures NameRest(ts, i, name) ==
            if KindAt(ts, i) != Point then Parsed(name, i)
            else if KindAt(ts, i + 1) != Ident then Refused
            else NameRest(ts, i + 2, name + [DOT] + ts[i + 1].lexeme)
  {}

  lemma {:induction false} NameIsSpelled(ts: seq<Tok>, i: nat, name: Bytes)
    ensures NameRest(Spelled(ts), i, name) == NameRest(ts, i, name)
    decreases |ts| - i
  {
    hide *;
    KindIsSpelled(ts, i);
    KindIsSpelled(ts, i + 1);
    if KindAt(ts, i) == Point && KindAt(ts, i + 1) == Ident {
      NameIsSpelled(ts, i + 2, name + [DOT] + ts[i + 1].lexeme);
    }
    SameName(ts, Spelled(ts), i, name);
  }

  lemma SameName(ts: seq<Tok>, us: seq<Tok>, i: nat, name: Bytes)
    requires KindAt(us, i) == KindAt(ts, i) && KindAt(us, i + 1) == KindAt(ts, i + 1)
    requires KindAt(ts, i + 1) == Ident ==> i + 1 < |ts| && i + 1 < |us| && us[i + 1].lexeme == ts[i + 1].lexeme
    requires KindAt(ts, i) == Point && KindAt(ts, i + 1) == Ident ==>
               NameRest(us, i + 2, name + [DOT] + ts[i + 1].lexeme) == NameRest(ts, i + 2, name + [DOT] + ts[i + 1].lexeme)
    ensures NameRest(us, i, name) == NameRest(ts, i, name)
  {
    hide *;
    NameRestIs(ts, i, name);
    NameRestIs(us, i, name);
  }

  /** The spelling does not matter to the parser. */
  lemma {:induction false} GenericIsSpelled(ts: seq<Tok>, i: nat)
    ensures ParseGeneric(Spelled(ts), i) == ParseGeneric(ts, i)
    decreases |ts| - i, 1
  {
    hide *;
    KindIsSpelled(ts, i);
    if KindAt(ts, i) == Ident {
      NameIsSpelled(ts, i + 1, ts[i].lexeme);
      var n := NameRest(ts, i + 1, ts[i].lexeme);
      if n.Parsed? {
        KindIsSpelled(ts, n.at);
        KindIsSpelled(ts, n.at + 1);
        ArgumentsAreSpelled(ts, n.at + 1, []);
      }
    }
    SameGeneric(ts, Spelled(ts), i);
  }

  lemma SameGeneric(ts: seq<Tok>, us: seq<Tok>, i: nat)
    requires KindAt(us, i) == KindAt(ts, i)
    requires KindAt(ts, i) == Ident ==>
               && i < |ts| && i < |us| && us[i].lexeme == ts[i].lexeme
               && NameRest(us, i + 1, us[i].lexeme) == NameRest(ts, i + 1, ts[i].lexeme)
               && var n := NameRest(ts, i + 1, ts[i].lexeme);
                  n.Parsed? ==> && KindAt(us, n.at) == KindAt(ts, n.at) && KindAt(us, n.at + 1) == KindAt(ts, n.at + 1)
                                && ParseArguments(us, n.at + 1, []) == ParseArguments(ts, n.at + 1, [])
    ensures ParseGeneric(us, i) == ParseGeneric(ts, i)
  {
    hide KindAt, NameRest, ParseArguments;
  }

  /** What one argument is parsed to. */
  function ArgumentOf(ts: seq<Tok>, i: nat): (r: Parse<TypeExpr>)
    ensures r.Parsed? ==> i < r.at <= |ts|
  {
    if KindAt(ts, i) != EntierLit then ParseUnion(ts, i)
    else if LeadingNumber(ts[i].lexeme, 0) <= MAX_ARGUMENT then Parsed(IntegerArgument(LeadingNumber(ts[i].lexeme, 0)), i + 1)
    else Refused
  }

  lemma ArgumentsAre(ts: seq<Tok>, i: nat, done: seq<TypeExpr>)
    ensures var a := ArgumentOf(ts, i);
            ParseArguments(ts, i, done) ==
            if a.Refused? then Refused
            else if KindAt(ts, a.at) == CrochetFerm then Parsed(done + [a.value], a.at + 1)
            else if KindAt(ts, a.at) != Virgule || KindAt(ts, a.at + 1) == CrochetFerm then Refused
            else ParseArguments(ts, a.at + 1, done + [a.value])
  {
    hide ParseUnion, LeadingNumber;
  }

  lemma {:induction false} ArgumentIsSpelled(ts: seq<Tok>, i: nat)
    ensures ArgumentOf(Spelled(ts), i) == ArgumentOf(ts, i)
    decreases |ts| - i, 3
  {
    hide Spelled, ParseUnion, LeadingNumber;
    KindIsSpelled(ts, i);
    if KindAt(ts, i) != EntierLit {
      UnionIsSpelled(ts, i);
    }
  }

  lemma {:induction false} ArgumentsAreSpelled(ts: seq<Tok>, i: nat, done: seq<TypeExpr>)
    ensures ParseArguments(Spelled(ts), i, done) == ParseArguments(ts, i, done)
    decreases |ts| - i, 4
  {
    hide *;
    ArgumentIsSpelled(ts, i);
    var a := ArgumentOf(ts, i);
    if a.Parsed? {
      KindIsSpelled(ts, a.at);
      KindIsSpelled(ts, a.at + 1);
      if KindAt(ts, a.at) == Virgule && KindAt(ts, a.at + 1) != CrochetFerm {
        var more := done + [a.value];
        ArgumentsAreSpelled(ts, a.at + 1, more);
      }
    }
    SameArguments(ts, Spelled(ts), i, done);
  }

  lemma SameArguments(ts: seq<Tok>, us: seq<Tok>, i: nat, done: seq<TypeExpr>)
    requires ArgumentOf(us, i) == ArgumentOf(ts, i)
    requires var a := ArgumentOf(ts, i);
             a.Parsed? ==>
               && KindAt(us, a.at) == KindAt(ts, a.at) && KindAt(us, a.at + 1) == KindAt(ts, a.at + 1)
               && (KindAt(ts, a.at) == Virgule && KindAt(ts, a.at + 1) != CrochetFerm ==>
                     ParseArguments(us, a.at + 1, done + [a.value]) == ParseArguments(ts, a.at + 1, done + [a.value]))
    ensures ParseArguments(us, i, done) == ParseArguments(ts, i, done)
  {
    hide *;
    ArgumentsAre(ts, i, done);
    ArgumentsAre(us, i, done);
  }

  lemma {:induction false} UnionIsSpelled(ts: seq<Tok>, i: nat)
    ensures ParseUnion(Spelled(ts), i) == ParseUnion(ts, i)
    decreases |ts| - i, 2
  {
    hide KindAt, Spelled, ParseGeneric, ParseAlternatives;
    GenericIsSpelled(ts, i);
    var first := ParseGeneric(ts, i);
    if first.Parsed? {
      KindIsSpelled(ts, first.at);
      AlternativesAreSpelled(ts, first.at, [first.value]);
    }
  }

  lemma {:induction false} AlternativesAreSpelled(ts: seq<Tok>, i: nat, done: seq<TypeExpr>)
    requires i <= |ts|
    ensures ParseAlternatives(Spelled(ts), i, done) == ParseAlternatives(ts, i, done)
    decreases |ts| - i, 0
  {
    hide Spelled, ParseGeneric;
    KindIsSpelled(ts, i);
    if KindAt(ts, i) == Pipe {
      GenericIsSpelled(ts, i + 1);
      var next := ParseGeneric(ts, i + 1);
      if next.Parsed? {
        AlternativesAreSpelled(ts, next.at, done + [next.value]);
      }
    }
  }

  // What was parsed is there

  const POINT_TOK := Tok(Point, [DOT])
  const OPEN_TOK := Tok(CrochetOuv, [OPEN])
  const CLOSE_TOK := Tok(CrochetFerm, [CLOSE])
  const COMMA_TOK := Tok(Virgule, [COMMA])
  const BAR_TOK := Tok(Pipe, [BAR])

  /** Identifiers are identifiers, and everything else is in its plain spelling. */
  ghost predicate Plain(ts: seq<Tok>) {
    Lexed(ts) && forall k | 0 <= k < |ts| :: Plainly(ts[k]) == ts[k]
  }

  lemma TokenIs(ts: seq<Tok>, i: nat)
    requires Plain(ts)
    ensures KindAt(ts, i) == Ident ==> i < |ts| && ts[i] == Tok(Ident, ts[i].lexeme) && IsIdent(ts[i].lexeme)
    ensures KindAt(ts, i) == Point ==> i < |ts| && ts[i] == POINT_TOK
    ensures KindAt(ts, i) == CrochetOuv ==> i < |ts| && ts[i] == OPEN_TOK
    ensures KindAt(ts, i) == CrochetFerm ==> i < |ts| && ts[i] == CLOSE_TOK
    ensures KindAt(ts, i) == Virgule ==> i < |ts| && ts[i] == COMMA_TOK
    ensures KindAt(ts, i) == Pipe ==> i < |ts| && ts[i] == BAR_TOK
    ensures KindAt(ts, i) == EntierLit ==> i < |ts| && ts[i] == Tok(EntierLit, Numeral(LeadingNumber(ts[i].lexeme, 0)))
  {
    hide IsIdent, LeadingNumber, Numeral;
    if i < |ts| {
      assert Plainly(ts[i]) == ts[i];
    }
  }

  /** The part stands from `i` to `at`. */
  ghost predicate Spans(ts: seq<Tok>, i: nat, part: seq<Tok>, at: nat) {
    at == i + |part| && Holds(ts, i, part)
  }

  lemma SpansOne(ts: seq<Tok>, i: nat, t: Tok)
    requires i < |ts| && ts[i] == t
    ensures Spans(ts, i, [t], i + 1)
  {}

  lemma SpansNone(ts: seq<Tok>, i: nat)
    requires i <= |ts|
    ensures Spans(ts, i, [], i)
  {}

  lemma SpansBoth(ts: seq<Tok>, i: nat, a: seq<Tok>, j: nat, b: seq<Tok>, k: nat)
    requires Spans(ts, i, a, j) && Spans(ts, j, b, k)
    ensures Spans(ts, i, a + b, k)
  {
    assert ts[i..i + |a| + |b|] == ts[i..i + |a|] + ts[i + |a|..i + |a| + |b|];
  }

  // Names

  lemma RestMore(w: Bytes, rest: seq<Bytes>)
    ensures RestToks([w] + rest) == [POINT_TOK] + ([Tok(Ident, w)] + RestToks(rest))
  {
    assert ([w] + rest)[1..] == rest;
  }

  lemma SplitMore(parts: seq<Bytes>, w: Bytes, rest: seq<Bytes>)
    ensures parts + [w] + rest == parts + ([w] + rest)
  {}

  lemma {:induction false} NameBack(ts: seq<Tok>, i: nat, name: Bytes) returns (parts: seq<Bytes>)
    requires Plain(ts) && i <= |ts| && NameRest(ts, i, name).Parsed?
    ensures var r := NameRest(ts, i, name);
            Spans(ts, i, RestToks(parts), r.at) && KindAt(ts, r.at) != Point && Split(r.value) == Split(name) + parts
    decreases |ts| - i
  {
    hide *;
    NameRestIs(ts, i, name);
    if KindAt(ts, i) != Point {
      parts := [];
      NoParts();
      SpansNone(ts, i);
      assert Split(name) + [] == Split(name);
    } else {
      TokenIs(ts, i);
      TokenIs(ts, i + 1);
      var w := ts[i + 1].lexeme;
      IdentHasNoDot(w);
      SplitSnoc(name, w);
      var rest := NameBack(ts, i + 2, name + [DOT] + w);
      parts := [w] + rest;
      SplitMore(Split(name), w, rest);
      RestMore(w, rest);
      SpansOne(ts, i, POINT_TOK);
      SpansOne(ts, i + 1, Tok(Ident, w));
      var at := NameRest(ts, i, name).at;
      SpansBoth(ts, i + 1, [Tok(Ident, w)], i + 2, RestToks(rest), at);
      SpansBoth(ts, i, [POINT_TOK], i + 1, [Tok(Ident, w)] + RestToks(rest), at);
    }
  }

  lemma NoParts()
    ensures RestToks([]) == []
  {}

  lemma NameMore(w: Bytes, parts: seq<Bytes>)
    ensures NameToks([w] + parts) == [Tok(Ident, w)] + RestToks(parts)
  {
    assert ([w] + parts)[1..] == parts;
  }

  lemma WholeNameBack(ts: seq<Tok>, i: nat)
    requires Plain(ts) && KindAt(ts, i) == Ident && NameRest(ts, i + 1, ts[i].lexeme).Parsed?
    ensures var r := NameRest(ts, i + 1, ts[i].lexeme);
            Spans(ts, i, NameToks(Split(r.value)), r.at) && KindAt(ts, r.at) != Point
  {
    hide *;
    TokenIs(ts, i);
    var w := ts[i].lexeme;
    var parts := NameBack(ts, i + 1, w);
    IdentHasNoDot(w);
    SplitPlain(w);
    NameMore(w, parts);
    SpansOne(ts, i, Tok(Ident, w));
    SpansBoth(ts, i, [Tok(Ident, w)], i + 1, RestToks(parts), NameRest(ts, i + 1, w).at);
  }

  // Arguments

  lemma Appended(done: seq<TypeExpr>, t: TypeExpr, more: seq<TypeExpr>)
    ensures done + [t] + more == done + ([t] + more) && [] + more == more
  {}

  lemma ArgumentsMore(t: TypeExpr, more: seq<TypeExpr>, after: seq<Tok>)
    ensures more == [] ==> ArgumentsToks([t]) + after == TypeToks(t) + after
    ensures more != [] ==> ArgumentsToks([t] + more) + after == TypeToks(t) + ([COMMA_TOK] + (ArgumentsToks(more) + after))
  {
    hide TypeToks;
    assert ([t] + more)[1..] == more;
    assert TypeToks(t) + [] == TypeToks(t);
  }

  lemma GenericToks(name: Bytes, arguments: seq<TypeExpr>)
    ensures TypeToks(Generic(name, arguments)) ==
            NameToks(Split(name)) + ([OPEN_TOK] + (ArgumentsToks(arguments) + [CLOSE_TOK]))
  {
    hide NameToks, Split, ArgumentsToks;
  }

  lemma NamedToks(name: Bytes)
    ensures TypeToks(Named(name)) == NameToks(Split(name))
  {}

  lemma GenericIs(ts: seq<Tok>, i: nat)
    requires ParseGeneric(ts, i).Parsed?
    ensures KindAt(ts, i) == Ident
    ensures var n := NameRest(ts, i + 1, ts[i].lexeme);
            n.Parsed? &&
            if KindAt(ts, n.at) != CrochetOuv then ParseGeneric(ts, i) == Parsed(Named(n.value), n.at)
            else && ParseArguments(ts, n.at + 1, []).Parsed?
                 && ParseGeneric(ts, i) == Parsed(Generic(n.value, ParseArguments(ts, n.at + 1, []).value), ParseArguments(ts, n.at + 1, []).at)
  {
    hide NameRest, ParseArguments;
  }

  lemma {:induction false} GenericBack(ts: seq<Tok>, i: nat)
    requires Plain(ts) && ParseGeneric(ts, i).Parsed?
    ensures var r := ParseGeneric(ts, i);
            !r.value.Union? && Spans(ts, i, TypeToks(r.value), r.at) && Bounded(ts, r.at, r.value)
    decreases |ts| - i, 1
  {
    hide *;
    GenericIs(ts, i);
    WholeNameBack(ts, i);
    var n := NameRest(ts, i + 1, ts[i].lexeme);
    if KindAt(ts, n.at) == CrochetOuv {
      TokenIs(ts, n.at);
      SpansOne(ts, n.at, OPEN_TOK);
      var at := ParseGeneric(ts, i).at;
      var arguments := ArgumentsBack(ts, n.at + 1, []);
      Appended([], Named([]), arguments);
      GenericToks(n.value, arguments);
      GenericIsBounded(ts, at, n.value, arguments);
      SpansBoth(ts, n.at, [OPEN_TOK], n.at + 1, ArgumentsToks(arguments) + [CLOSE_TOK], at);
      SpansBoth(ts, i, NameToks(Split(n.value)), n.at, [OPEN_TOK] + (ArgumentsToks(arguments) + [CLOSE_TOK]), at);
    } else {
      NamedToks(n.value);
      NameIsBounded(ts, n.at, n.value);
    }
  }

  lemma NameIsBounded(ts: seq<Tok>, i: nat, name: Bytes)
    requires KindAt(ts, i) != Point && KindAt(ts, i) != CrochetOuv
    ensures Bounded(ts, i, Named(name))
  {}

  lemma GenericIsBounded(ts: seq<Tok>, i: nat, name: Bytes, arguments: seq<TypeExpr>)
    ensures Bounded(ts, i, Generic(name, arguments))
  {}

  /** One argument is there. */
  lemma {:induction false} ArgumentIsThere(ts: seq<Tok>, i: nat)
    requires Plain(ts) && ArgumentOf(ts, i).Parsed?
    ensures Spans(ts, i, TypeToks(ArgumentOf(ts, i).value), ArgumentOf(ts, i).at)
    decreases |ts| - i, 3
  {
    hide Plain, Spans, ParseUnion, LeadingNumber, Numeral;
    if KindAt(ts, i) == EntierLit {
      TokenIs(ts, i);
      SpansOne(ts, i, ts[i]);
    } else {
      UnionBack(ts, i);
    }
  }

  /** The arguments and the bracket after them are there. */
  lemma {:induction false} ArgumentsBack(ts: seq<Tok>, i: nat, done: seq<TypeExpr>) returns (rest: seq<TypeExpr>)
    requires Plain(ts) && ParseArguments(ts, i, done).Parsed?
    ensures var r := ParseArguments(ts, i, done);
            r.value == done + rest && rest != [] && Spans(ts, i, ArgumentsToks(rest) + [CLOSE_TOK], r.at)
    decreases |ts| - i, 4
  {
    hide *;
    ArgumentsAre(ts, i, done);
    ArgumentIsThere(ts, i);
    var a, r := ArgumentOf(ts, i), ParseArguments(ts, i, done);
    TokenIs(ts, a.at);
    if KindAt(ts, a.at) == CrochetFerm {
      rest := [a.value];
      SpansOne(ts, a.at, CLOSE_TOK);
      ArgumentsMore(a.value, [], [CLOSE_TOK]);
      SpansBoth(ts, i, TypeToks(a.value), a.at, [CLOSE_TOK], r.at);
    } else {
      var more := ArgumentsBack(ts, a.at + 1, done + [a.value]);
      rest := [a.value] + more;
      Appended(done, a.value, more);
      ArgumentsMore(a.value, more, [CLOSE_TOK]);
      SpansOne(ts, a.at, COMMA_TOK);
      SpansBoth(ts, a.at, [COMMA_TOK], a.at + 1, ArgumentsToks(more) + [CLOSE_TOK], r.at);
      SpansBoth(ts, i, TypeToks(a.value), a.at, [COMMA_TOK] + (ArgumentsToks(more) + [CLOSE_TOK]), r.at);
    }
  }

  // Unions

  lemma UnionIs(ts: seq<Tok>, i: nat)
    requires ParseUnion(ts, i).Parsed?
    ensures ParseGeneric(ts, i).Parsed?
    ensures var first := ParseGeneric(ts, i);
            if KindAt(ts, first.at) != Pipe then ParseUnion(ts, i) == first
            else && ParseAlternatives(ts, first.at, [first.value]).Parsed?
                 && ParseUnion(ts, i) == Parsed(Union(ParseAlternatives(ts, first.at, [first.value]).value),
                                                ParseAlternatives(ts, first.at, [first.value]).at)
  {
    hide ParseGeneric, ParseAlternatives;
  }

  /** What the parser takes for an annotation writes it, and ends where it can end. */
  lemma {:induction false} UnionBack(ts: seq<Tok>, i: nat)
    requires Plain(ts) && ParseUnion(ts, i).Parsed?
    ensures var r := ParseUnion(ts, i);
            Spans(ts, i, TypeToks(r.value), r.at) && Bounded(ts, r.at, r.value) && KindAt(ts, r.at) != Pipe
    decreases |ts| - i, 2
  {
    hide *;
    UnionIs(ts, i);
    GenericBack(ts, i);
    var first, at := ParseGeneric(ts, i), ParseUnion(ts, i).at;
    if KindAt(ts, first.at) == Pipe {
      var rest := AlternativesBack(ts, first.at, [first.value]);
      UnionToks(first.value, rest);
      SpansBoth(ts, i, TypeToks(first.value), first.at, [BAR_TOK] + AlternativesToks(rest), at);
      UnionIsBounded(ts, at, [first.value] + rest);
    }
  }

  lemma UnionToks(first: TypeExpr, rest: seq<TypeExpr>)
    requires rest != []
    ensures TypeToks(Union([first] + rest)) == AlternativesToks([first] + rest)
    ensures AlternativesToks([first] + rest) == TypeToks(first) + ([BAR_TOK] + AlternativesToks(rest))
  {
    assert ([first] + rest)[1..] == rest;
  }

  lemma OneOfThem(t: TypeExpr)
    ensures AlternativesToks([t]) == TypeToks(t)
  {
    hide TypeToks;
    assert TypeToks(t) + [] == TypeToks(t);
  }

  lemma UnionIsBounded(ts: seq<Tok>, i: nat, xs: seq<TypeExpr>)
    requires xs != [] && Bounded(ts, i, xs[|xs| - 1])
    ensures Bounded(ts, i, Union(xs))
  {}

  lemma AlternativesAre(ts: seq<Tok>, i: nat, done: seq<TypeExpr>)
    requires i <= |ts| && KindAt(ts, i) == Pipe
    ensures var next := ParseGeneric(ts, i + 1);
            ParseAlternatives(ts, i, done) ==
            if next.Refused? then Refused else ParseAlternatives(ts, next.at, done + [next.value])
  {
    hide ParseGeneric;
  }

  lemma AlternativesStop(ts: seq<Tok>, i: nat, done: seq<TypeExpr>)
    requires i <= |ts| && KindAt(ts, i) != Pipe
    ensures ParseAlternatives(ts, i, done) == Parsed(done, i)
  {}

  lemma LastOf(t: TypeExpr, more: seq<TypeExpr>)
    requires more != []
    ensures ([t] + more)[|[t] + more| - 1] == more[|more| - 1]
  {}

  /** The bar and the alternatives after it are there. */
  lemma {:induction false} AlternativesBack(ts: seq<Tok>, i: nat, done: seq<TypeExpr>) returns (rest: seq<TypeExpr>)
    requires Plain(ts) && i <= |ts| && KindAt(ts, i) == Pipe && ParseAlternatives(ts, i, done).Parsed?
    ensures var r := ParseAlternatives(ts, i, done);
            && r.value == done + rest && rest != [] && Spans(ts, i, [BAR_TOK] + AlternativesToks(rest), r.at)
            && Bounded(ts, r.at, rest[|rest| - 1]) && KindAt(ts, r.at) != Pipe
    decreases |ts| - i, 0
  {
    hide *;
    TokenIs(ts, i);
    AlternativesAre(ts, i, done);
    GenericBack(ts, i + 1);
    var next, at := ParseGeneric(ts, i + 1), ParseAlternatives(ts, i, done).at;
    SpansOne(ts, i, BAR_TOK);
    if KindAt(ts, next.at) == Pipe {
      var more := AlternativesBack(ts, next.at, done + [next.value]);
      rest := [next.value] + more;
      Appended(done, next.value, more);
      LastOf(next.value, more);
      UnionToks(next.value, more);
      SpansBoth(ts, i + 1, TypeToks(next.value), next.at, [BAR_TOK] + AlternativesToks(more), at);
    } else {
      rest := [next.value];
      AlternativesStop(ts, next.at, done + [next.value]);
      OneOfThem(next.value);
    }
    SpansBoth(ts, i, [BAR_TOK], i + 1, AlternativesToks(rest), at);
  }

  // Exactly

  /** The tokens from `i` to `at` write the annotation, and it ends there. */
  ghost predicate Writes(ts: seq<Tok>, i: nat, t: TypeExpr, at: nat) {
    Made(t) && Spans(Spelled(ts), i, TypeToks(t), at) && Bounded(ts, at, t) && KindAt(ts, at) != Pipe
  }

  lemma SpelledIsPlain(ts: seq<Tok>)
    requires Lexed(ts)
    ensures Plain(Spelled(ts))
  {
    hide IsIdent, LeadingNumber, Numeral, Natural, AllDigits;
    forall k | 0 <= k < |ts| && ts[k].kind == EntierLit
      ensures LeadingNumber(Spelled(ts)[k].lexeme, 0) == LeadingNumber(ts[k].lexeme, 0)
    {
      KindIsSpelled(ts, k);
    }
  }

  lemma {:induction false} BoundIsSpelled(ts: seq<Tok>, i: nat, t: TypeExpr)
    ensures Bounded(Spelled(ts), i, t) == Bounded(ts, i, t)
    decreases t
  {
    hide Spelled, KindAt;
    KindIsSpelled(ts, i);
    if t.Union? && t.alternatives != [] {
      BoundIsSpelled(ts, i, t.alternatives[|t.alternatives| - 1]);
    }
  }

  /** On lexed tokens the parser returns an annotation exactly when the tokens write it. */
  lemma AnnotationIsExact(ts: seq<Tok>, i: nat, t: TypeExpr, at: nat)
    requires Lexed(ts)
    ensures ParseUnion(ts, i) == Parsed(t, at) <==> Writes(ts, i, t, at)
  {
    hide Lexed, Plain, Holds, Spelled, ParseUnion, KindAt, Bounded, TypeToks, Made;
    UnionIsSpelled(ts, i);
    SpelledIsPlain(ts);
    KindIsSpelled(ts, at);
    BoundIsSpelled(ts, at, t);
    if ParseUnion(ts, i) == Parsed(t, at) {
      UnionIsMade(ts, i);
      UnionBack(Spelled(ts), i);
    }
    if Writes(ts, i, t, at) {
      TypeIsRead(Spelled(ts), i, t);
    }
  }
}
