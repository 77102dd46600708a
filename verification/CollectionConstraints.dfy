/** Finding the bar of a union in the text of a type: the first one outside brackets. */
module CollectionConstraints {
  import opened Utf8
  import opened Numerals
  import opened Subsequences
  import opened Lexing
  import opened TypeAnnotations
  import TypeRoundTrip

  /** Brackets opened and not closed after one more byte. */
  function Deeper(b: Byte, depth: int): int {
    if b == OPEN then depth + 1 else if b == CLOSE then depth - 1 else depth
  }

  function Depth(s: Bytes, i: nat): int
    requires i <= |s|
  {
    if i == 0 then 0 else Deeper(s[i - 1], Depth(s, i - 1))
  }

  predicate TopLevelBar(s: Bytes, i: nat) {
    i < |s| && s[i] == BAR && Depth(s, i) == 0
  }

  method FindCollectionTypeUnion(s: Bytes) returns (r: Option<nat>)
    ensures r.Some? ==> TopLevelBar(s, r.value) && forall k | 0 <= k < r.value :: !TopLevelBar(s, k)
    ensures r.None? ==> forall k | 0 <= k < |s| :: !TopLevelBar(s, k)
    ensures r == FirstBar(s, 0, 0)
  {
    var depth := 0;
    for i := 0 to |s|
      invariant depth == Depth(s, i) && forall k | 0 <= k < i :: !TopLevelBar(s, k)
      invariant FirstBar(s, 0, 0) == FirstBar(s, i, depth)
    {
      if s[i] == OPEN {
        depth := depth + 1;
      } else if s[i] == CLOSE {
        depth := depth - 1;
      } else if s[i] == BAR && depth == 0 {
        return Some(i);
      }
    }
    return None;
  }

  /** The first bar outside brackets from an offset on, at a given depth. */
  function FirstBar(s: Bytes, i: nat, depth: int): Option<nat>
    requires i <= |s|
    decreases |s| - i
  {
    if i == |s| then None
    else if s[i] == BAR && depth == 0 then Some(i)
    else FirstBar(s, i + 1, Deeper(s[i], depth))
  }

  predicate Harmless(b: Byte) {
    b != OPEN && b != CLOSE && b != BAR
  }

  lemma {:induction false} PlainOver(s: Bytes, i: nat, w: Bytes, depth: int)
    requires At(s, i, w) && forall k | 0 <= k < |w| :: Harmless(w[k])
    ensures i + |w| <= |s| && FirstBar(s, i, depth) == FirstBar(s, i + |w|, depth)
    decreases |w|
  {
    AtFits(s, i, w);
    if w != [] {
      AtHead(s, i, w);
      PlainOver(s, i + 1, w[1..], depth);
    }
  }

  lemma {:induction false} NameIsPlain(name: Bytes)
    requires IsName(name)
    ensures forall k | 0 <= k < |name| :: Harmless(name[k])
  {
    hide IsIdent;
    TypeRoundTrip.SplitJoins(name);
    JoinedIsPlain(Split(name));
  }

  lemma {:induction false} JoinedIsPlain(parts: seq<Bytes>)
    requires parts != [] && TypeRoundTrip.AllIdents(parts)
    ensures forall k | 0 <= k < |TypeRoundTrip.Joined(parts)| :: Harmless(TypeRoundTrip.Joined(parts)[k])
    decreases |parts|
  {
    IdentIsPlain(parts[0]);
    hide IsIdent;
    if |parts| > 1 {
      JoinedIsPlain(parts[1..]);
    }
  }

  lemma IdentIsPlain(w: Bytes)
    requires IsIdent(w)
    ensures forall k | 0 <= k < |w| :: Harmless(w[k])
  {
    hide Keyword, IsWord;
  }

  lemma NumeralIsPlain(n: nat)
    ensures forall k | 0 <= k < |Numeral(n)| :: Harmless(Numeral(n)[k])
  {
    NumeralIsExact(n);
  }

  lemma {:induction false} ByteOver(s: Bytes, i: nat, b: Byte, depth: int)
    requires At(s, i, [b]) && (b == BAR ==> depth != 0)
    ensures i + 1 <= |s| && FirstBar(s, i, depth) == FirstBar(s, i + 1, Deeper(b, depth))
  {
    AtByte(s, i, b);
  }

  /** Inside brackets every annotation is passed over, outside them all but a union. */
  lemma {:induction false} TypeOver(s: Bytes, i: nat, t: TypeExpr, depth: int)
    requires (t.IntegerArgument? || Made(t)) && At(s, i, Text(t)) && depth >= 0 && (depth == 0 ==> !t.Union?)
    ensures i + |Text(t)| <= |s| && FirstBar(s, i, depth) == FirstBar(s, i + |Text(t)|, depth)
    decreases t, 0
  {
    hide At, FirstBar, IsName, Numeral, ArgumentsText, AlternativesText, AllArguments, AllAlternatives;
    match t {
      case Named(name) =>
        NameIsPlain(name);
        PlainOver(s, i, name, depth);
      case IntegerArgument(value) =>
        NumeralIsPlain(value);
        PlainOver(s, i, Numeral(value), depth);
      case Union(alternatives) => AlternativesOver(s, i, alternatives, depth);
      case Generic(name, arguments) =>
        var a := ArgumentsText(arguments);
        AtThree(s, i, name + [OPEN], a, [CLOSE]);
        AtSplit(s, i, name, [OPEN]);
        NameIsPlain(name);
        PlainOver(s, i, name, depth);
        ByteOver(s, i + |name|, OPEN, depth);
        ArgumentsOver(s, i + |name| + 1, arguments, depth + 1);
        ByteOver(s, i + |name| + 1 + |a|, CLOSE, depth + 1);
    }
  }

  lemma {:induction false} ArgumentsOver(s: Bytes, i: nat, ts: seq<TypeExpr>, depth: int)
    requires AllArguments(ts) && At(s, i, ArgumentsText(ts)) && depth > 0
    ensures i + |ArgumentsText(ts)| <= |s| && FirstBar(s, i, depth) == FirstBar(s, i + |ArgumentsText(ts)|, depth)
    decreases ts, 1
  {
    hide At, FirstBar, Text, Made;
    AtFits(s, i, ArgumentsText(ts));
    if ts != [] {
      var rest := if |ts| == 1 then [] else [COMMA] + ArgumentsText(ts[1..]);
      AtSplit(s, i, Text(ts[0]), rest);
      TypeOver(s, i, ts[0], depth);
      if |ts| > 1 {
        AtSplit(s, i + |Text(ts[0])|, [COMMA], ArgumentsText(ts[1..]));
        ByteOver(s, i + |Text(ts[0])|, COMMA, depth);
        ArgumentsOver(s, i + |Text(ts[0])| + 1, ts[1..], depth);
      }
    }
  }

  lemma {:induction false} AlternativesOver(s: Bytes, i: nat, ts: seq<TypeExpr>, depth: int)
    requires AllAlternatives(ts) && At(s, i, AlternativesText(ts)) && depth > 0
    ensures i + |AlternativesText(ts)| <= |s| && FirstBar(s, i, depth) == FirstBar(s, i + |AlternativesText(ts)|, depth)
    decreases ts, 1
  {
    hide At, FirstBar, Text, Made;
    AtFits(s, i, AlternativesText(ts));
    if ts != [] {
      var bar := [SPACE, BAR, SPACE];
      var rest := if |ts| == 1 then [] else bar + AlternativesText(ts[1..]);
      AtSplit(s, i, Text(ts[0]), rest);
      TypeOver(s, i, ts[0], depth);
      if |ts| > 1 {
        var p := i + |Text(ts[0])|;
        AtSplit(s, p, bar, AlternativesText(ts[1..]));
        BarOver(s, p, depth);
        AlternativesOver(s, p + 3, ts[1..], depth);
      }
    }
  }

  lemma BarOver(s: Bytes, p: nat, depth: int)
    requires At(s, p, [SPACE, BAR, SPACE]) && depth > 0
    ensures p + 3 <= |s| && FirstBar(s, p, depth) == FirstBar(s, p + 3, depth)
  {
    AtIndex(s, p, [SPACE, BAR, SPACE], 0);
    AtIndex(s, p, [SPACE, BAR, SPACE], 1);
    AtIndex(s, p, [SPACE, BAR, SPACE], 2);
    assert FirstBar(s, p, depth) == FirstBar(s, p + 1, depth) == FirstBar(s, p + 2, depth);
  }

  /** On a printed annotation a bar is found exactly for a union, and it is the one after the
      first alternative. */
  lemma UnionIsFound(t: TypeExpr)
    requires Made(t)
    ensures FirstBar(Text(t), 0, 0) == if t.Union? then Some(|Text(t.alternatives[0])| + 1) else None
  {
    var s := Text(t);
    assert s[0..|s|] == s;
    if t.Union? {
      FirstAlternative(s, t.alternatives);
    } else {
      TypeOver(s, 0, t, 0);
    }
  }

  lemma FirstAlternative(s: Bytes, ts: seq<TypeExpr>)
    requires |ts| >= 2 && AllAlternatives(ts) && At(s, 0, AlternativesText(ts))
    ensures FirstBar(s, 0, 0) == Some(|Text(ts[0])| + 1)
  {
    hide At, Text, Made;
    var bar := [SPACE, BAR, SPACE];
    var p := |Text(ts[0])|;
    AtSplit(s, 0, Text(ts[0]), bar + AlternativesText(ts[1..]));
    AtSplit(s, p, bar, AlternativesText(ts[1..]));
    TypeOver(s, 0, ts[0], 0);
    AtIndex(s, p, bar, 0);
    AtIndex(s, p, bar, 1);
  }
}
