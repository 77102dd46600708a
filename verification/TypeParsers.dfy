/** The annotation parser: it moves over the tokens and collects arguments and alternatives. */
module TypeParsers {
  import opened Utf8
  import opened Numerals
  import opened Lexing
  import opened TypeAnnotations

  function Value<T>(parse: Parse<T>): Option<T> {
    if parse.Parsed? then Some(parse.value) else None
  }

  /** One argument: an integer that fits, or a type. */
  function ArgumentAt(ts: seq<Tok>, i: nat): (r: Parse<TypeExpr>)
    ensures r.Parsed? ==> i < r.at <= |ts|
  {
    if KindAt(ts, i) == EntierLit
    then if LeadingNumber(ts[i].lexeme, 0) <= MAX_ARGUMENT
         then Parsed(IntegerArgument(LeadingNumber(ts[i].lexeme, 0)), i + 1) else Refused
    else ParseUnion(ts, i)
  }

  class TypeParser {
    const tokens: seq<Tok>
    var current: nat

    constructor (tokens: seq<Tok>)
      ensures this.tokens == tokens && current == 0
    {
      this.tokens := tokens;
      current := 0;
    }

    /** What is left to read; nothing once past the end. */
    function Remaining(): nat
      reads this
    {
      if current < |tokens| then |tokens| - current else 0
    }

    predicate Check(kind: TokenType)
      reads this
    {
      kind != FinFichier && KindAt(tokens, current) == kind
    }

    method Match(kind: TokenType) returns (matched: bool)
      requires kind != FinFichier
      modifies this
      ensures matched == (KindAt(tokens, old(current)) == kind)
      ensures current == if matched then old(current) + 1 else old(current)
    {
      matched := Check(kind);
      if matched {
        current := current + 1;
      }
    }

    /** The text of the token, if it is of the kind expected. */
    method Expect(kind: TokenType) returns (lexeme: Option<Bytes>)
      requires kind != FinFichier
      modifies this
      ensures lexeme.Some? == (KindAt(tokens, old(current)) == kind)
      ensures lexeme.Some? ==> old(current) < |tokens| && lexeme.value == tokens[old(current)].lexeme && current == old(current) + 1
    {
      if !Check(kind) {
        return None;
      }
      current := current + 1;
      return Some(tokens[current - 1].lexeme);
    }

    method ParseUnionType() returns (r: Option<TypeExpr>)
      modifies this
      ensures r == Value(ParseUnion(tokens, old(current)))
      ensures r.Some? ==> current == ParseUnion(tokens, old(current)).at
      decreases Remaining(), 2
    {
      hide ParseGeneric, ParseAlternatives, ParseUnion, KindAt;
      UnionUnfold(tokens, current);
      r := ParseGenericType();
      if r.None? || !Check(Pipe) {
        return;
      }
      var alternatives := [r.value];
      ghost var begun := current;
      while Check(Pipe)
        invariant old(current) < begun <= current <= |tokens|
        invariant ParseAlternatives(tokens, begun, [r.value]) == ParseAlternatives(tokens, current, alternatives)
        decreases |tokens| - current
      {
        AlternativesUnfold(tokens, current, alternatives);
        var _ := Match(Pipe);
        var next := ParseGenericType();
        if next.None? {
          return None;
        }
        alternatives := alternatives + [next.value];
      }
      AlternativesUnfold(tokens, current, alternatives);
      r := Some(Union(alternatives));
    }

    method ParseGenericType() returns (r: Option<TypeExpr>)
      modifies this
      ensures r == Value(ParseGeneric(tokens, old(current)))
      ensures r.Some? ==> current == ParseGeneric(tokens, old(current)).at
      decreases Remaining(), 1
    {
      hide ParseArguments, NameRest;
      var first := Expect(Ident);
      if first.None? {
        return None;
      }
      var name := ParseNameRest(first.value);
      if name.None? {
        return None;
      }
      var bracket := Match(CrochetOuv);
      if !bracket {
        return Some(Named(name.value));
      }
      if Check(CrochetFerm) {
        return None;
      }
      var arguments := ParseArgumentList();
      return if arguments.None? then None else Some(Generic(name.value, arguments.value));
    }

    method ParseNameRest(first: Bytes) returns (name: Option<Bytes>)
      modifies this
      ensures name == Value(NameRest(tokens, old(current), first))
      ensures name.Some? ==> current == NameRest(tokens, old(current), first).at
      ensures name.Some? ==> old(current) <= current
    {
      var joined := first;
      while Check(Point)
        invariant old(current) <= current
        invariant NameRest(tokens, old(current), first) == NameRest(tokens, current, joined)
        decreases |tokens| - current
      {
        var _ := Match(Point);
        var part := Expect(Ident);
        if part.None? {
          return None;
        }
        joined := joined + [DOT] + part.value;
      }
      return Some(joined);
    }

    method ParseArgument() returns (r: Option<TypeExpr>)
      modifies this
      ensures r == Value(ArgumentAt(tokens, old(current)))
      ensures r.Some? ==> current == ArgumentAt(tokens, old(current)).at
      decreases Remaining(), 3
    {
      hide ParseUnion, LeadingNumber;
      if !Check(EntierLit) {
        r := ParseUnionType();
        return;
      }
      var literal := Expect(EntierLit);
      var value := LeadingNumber(literal.value, 0);
      return if value > MAX_ARGUMENT then None else Some(IntegerArgument(value));
    }

    /** Arguments up to and with the closing bracket. */
    method ParseArgumentList() returns (r: Option<seq<TypeExpr>>)
      modifies this
      ensures r == Value(ParseArguments(tokens, old(current), []))
      ensures r.Some? ==> current == ParseArguments(tokens, old(current), []).at
      decreases Remaining(), 4
    {
      hide ParseArguments, ArgumentAt, KindAt;
      var arguments: seq<TypeExpr> := [];
      while true
        invariant old(current) <= current
        invariant ParseArguments(tokens, old(current), []) == ParseArguments(tokens, current, arguments)
        invariant current != old(current) ==> current <= |tokens|
        decreases Remaining(), current == old(current)
      {
        ArgumentsUnfold(tokens, current, arguments);
        var a := ParseArgument();
        if a.None? {
          return None;
        }
        arguments := arguments + [a.value];
        if Check(CrochetFerm) {
          break;
        }
        var comma := Expect(Virgule);
        if comma.None? || Check(CrochetFerm) {
          return None;
        }
      }
      var closed := Expect(CrochetFerm);
      return Some(arguments);
    }
  }

  lemma UnionUnfold(ts: seq<Tok>, i: nat)
    ensures var first := ParseGeneric(ts, i);
            ParseUnion(ts, i) ==
            if first.Refused? || KindAt(ts, first.at) != Pipe then first
            else if ParseAlternatives(ts, first.at, [first.value]).Refused? then Refused
            else Parsed(Union(ParseAlternatives(ts, first.at, [first.value]).value), ParseAlternatives(ts, first.at, [first.value]).at)
  {
    hide ParseGeneric, ParseAlternatives;
  }

  lemma AlternativesUnfold(ts: seq<Tok>, i: nat, done: seq<TypeExpr>)
    requires i <= |ts|
    ensures ParseAlternatives(ts, i, done) ==
            if KindAt(ts, i) != Pipe then Parsed(done, i)
            else if ParseGeneric(ts, i + 1).Refused? then Refused
            else ParseAlternatives(ts, ParseGeneric(ts, i + 1).at, done + [ParseGeneric(ts, i + 1).value])
  {
    hide ParseGeneric;
  }

  lemma ArgumentsUnfold(ts: seq<Tok>, i: nat, done: seq<TypeExpr>)
    ensures var a := ArgumentAt(ts, i);
            ParseArguments(ts, i, done) ==
            if a.Refused? then Refused
            else if KindAt(ts, a.at) == CrochetFerm then Parsed(done + [a.value], a.at + 1)
            else if KindAt(ts, a.at) != Virgule || KindAt(ts, a.at + 1) == CrochetFerm then Refused
            else ParseArguments(ts, a.at + 1, done + [a.value])
  {
    hide ParseUnion, LeadingNumber;
  }
}
