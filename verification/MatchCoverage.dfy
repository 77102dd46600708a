/** Exhaustiveness of `agir selon` over a Résultat: what the analyzer accepts takes every
    success and every failure, subclasses included.
 */
module MatchCoverage {
  import opened Utf8
  import opened Assignability

  /** A `Succès` pattern, an `Échec` pattern with or without a type, or another pattern. */
  datatype Pattern = Succes | Echec(type_: Option<Type>) | Autre

  datatype Value = Success | Failure(class_: Name)

  predicate IsResultPattern(p: Pattern) {
    p.Succes? || p.Echec?
  }

  /** The alternatives of a union, or the type alone. */
  function Alternatives(error: Type): seq<Type> {
    if error.Union? then error.alternatives else [error]
  }

  /** Whether a pattern takes every failure of a type. */
  predicate Covers(t: Table, p: Pattern, alternative: Type) {
    p.Echec? && (p.type_.None? || Assignable(t, alternative, p.type_.value))
  }

  predicate Covered(t: Table, patterns: seq<Pattern>, alternative: Type) {
    exists k | 0 <= k < |patterns| :: Covers(t, patterns[k], alternative)
  }

  predicate AllCovered(t: Table, patterns: seq<Pattern>, alternatives: seq<Type>) {
    forall i | 0 <= i < |alternatives| :: Covered(t, patterns, alternatives[i])
  }

  predicate CoversAllFailures(t: Table, patterns: seq<Pattern>, error: Type) {
    Echec(None) in patterns || (!error.Interface? && AllCovered(t, patterns, Alternatives(error)))
  }

  /** LUM-S0027 is reported. */
  predicate Incomplete(t: Table, patterns: seq<Pattern>, hasElse: bool, error: Type) {
    && (exists k | 0 <= k < |patterns| :: IsResultPattern(patterns[k]))
    && !hasElse && (Succes !in patterns || !CoversAllFailures(t, patterns, error))
  }

  // As the analyzer has it

  /** The class of a failure's error is one the type allows. */
  predicate Possible(t: Table, v: Value, error: Type) {
    v.Failure? ==> v.class_ != [] && Assignable(t, Class(v.class_), error)
  }

  /** A typed pattern takes the failures whose error is of that type. */
  predicate Takes(t: Table, p: Pattern, v: Value) {
    match p
    case Succes => v.Success?
    case Echec(type_) => v.Failure? && (type_.None? || Assignable(t, Class(v.class_), type_.value))
    case Autre => false
  }

  predicate PatternsFit(t: Table, patterns: seq<Pattern>) {
    forall k | 0 <= k < |patterns| && patterns[k].Echec? && patterns[k].type_.Some? :: Fits(t, patterns[k].type_.value)
  }

  lemma PossibleIsSome(t: Table, v: Value, error: Type) returns (i: nat)
    requires v.Failure? && Possible(t, v, error) && Fits(t, error)
    ensures i < |Alternatives(error)| && Fits(t, Alternatives(error)[i])
    ensures Assignable(t, Class(v.class_), Alternatives(error)[i]) && ClassNames(Alternatives(error)[i]) <= ClassNames(error)
  {
    i := 0;
    if error.Union? {
      i := ToUnion(t, Class(v.class_), error);
      FitsAt(t, error.alternatives, i);
      NamesAt(error.alternatives, i);
    }
  }

  /** A match with a pattern of the result that is not reported. */
  predicate Accepted(t: Table, patterns: seq<Pattern>, hasElse: bool, error: Type) {
    (exists k | 0 <= k < |patterns| :: IsResultPattern(patterns[k])) && !Incomplete(t, patterns, hasElse, error)
  }

  /** What is accepted is exhaustive: every value is taken by some pattern or by `sinon`, unless
      its class and the error type have a gap between them. */
  lemma AcceptedIsExhaustive(t: Table, patterns: seq<Pattern>, hasElse: bool, error: Type, v: Value)
    requires OneModule(t) && Fits(t, error) && PatternsFit(t, patterns) && Accepted(t, patterns, hasElse, error)
    requires Possible(t, v, error) && (v.Failure? ==> NoGaps(t, Class(v.class_), error))
    ensures hasElse || exists k | 0 <= k < |patterns| :: Takes(t, patterns[k], v)
  {
    hide Assignable, Fits, Gap, NoGaps;
    if !hasElse {
      if v.Success? {
        var k :| 0 <= k < |patterns| && patterns[k] == Succes;
        assert Takes(t, patterns[k], v);
      } else if Echec(None) in patterns {
        var k :| 0 <= k < |patterns| && patterns[k] == Echec(None);
        assert Takes(t, patterns[k], v);
      } else {
        var i := PossibleIsSome(t, v, error);
        assert Covered(t, patterns, Alternatives(error)[i]);
        var k :| 0 <= k < |patterns| && Covers(t, patterns[k], Alternatives(error)[i]);
        if patterns[k].type_.Some? {
          ClassFits(t, v.class_);
          FewerNames(t, Class(v.class_), error, Class(v.class_), Alternatives(error)[i]);
          Transitive(t, Class(v.class_), Alternatives(error)[i], patterns[k].type_.value);
        }
        assert Takes(t, patterns[k], v);
      }
    }
  }

  lemma ClassFits(t: Table, n: Name)
    requires n != []
    ensures Fits(t, Class(n))
  {}

  /** Whether a value is taken, when it can arise and the match is accepted. */
  predicate Exhausts(t: Table, patterns: seq<Pattern>, hasElse: bool, error: Type, v: Value) {
    Fits(t, error) && PatternsFit(t, patterns) && Accepted(t, patterns, hasElse, error) && Possible(t, v, error) ==>
      hasElse || exists k | 0 <= k < |patterns| :: Takes(t, patterns[k], v)
  }

  /** The exact condition: all accepted matches are exhaustive when the table has no gap, and
      only then. */
  lemma ExhaustiveExactly(t: Table)
    requires OneModule(t)
    ensures (forall n: Name, m: Name | n != [] && m != [] :: !Gap(t, n, m)) <==>
            (forall patterns, hasElse, error, v :: Exhausts(t, patterns, hasElse, error, v))
  {
    hide Gap;
    if forall n: Name, m: Name | n != [] && m != [] :: !Gap(t, n, m) {
      forall patterns, hasElse, error, v ensures Exhausts(t, patterns, hasElse, error, v) {
        if Fits(t, error) && PatternsFit(t, patterns) && Accepted(t, patterns, hasElse, error) && Possible(t, v, error) {
          FitNames(t, error);
          hide Accepted, Takes, Fits, PatternsFit;
          AcceptedIsExhaustive(t, patterns, hasElse, error, v);
        }
      }
    } else {
      var n: Name, m: Name :| n != [] && m != [] && Gap(t, n, m);
      GapEscapes(t, n, m);
    }
  }

  /** The failures of class `a`, which counts as `b`, are taken by no pattern for errors. */
  lemma GapEscapes(t: Table, a: Name, b: Name)
    requires OneModule(t) && a != [] && b != [] && Gap(t, a, b)
    ensures !Exhausts(t, [Succes, Echec(Some(ERREUR))], false, Class(b), Failure(a))
  {
    hide Gap, Assignable;
    GapBreaks(t, a, b);
    var patterns := [Succes, Echec(Some(ERREUR))];
    assert IsResultPattern(patterns[0]) && Covers(t, patterns[1], Class(b));
    assert Fits(t, Class(b)) && Fits(t, ERREUR);
  }

  /** When the error type names classes, a report is never in vain: some value is taken by
      no pattern. */
  lemma ReportedIsIncomplete(t: Table, patterns: seq<Pattern>, hasElse: bool, error: Type) returns (v: Value)
    requires Fits(t, error) && forall i | 0 <= i < |Alternatives(error)| :: Alternatives(error)[i].Class?
    requires Incomplete(t, patterns, hasElse, error)
    ensures Possible(t, v, error) && !hasElse
    ensures forall k | 0 <= k < |patterns| :: !Takes(t, patterns[k], v)
  {
    hide Assignable, Fits;
    v := Success;
    if Succes in patterns {
      var i :| 0 <= i < |Alternatives(error)| && !Covered(t, patterns, Alternatives(error)[i]);
      var alternative := Alternatives(error)[i];
      v := Failure(alternative.name);
      AlternativeIsPossible(t, error, i);
      forall k | 0 <= k < |patterns| ensures !Takes(t, patterns[k], v) {
        assert !Covers(t, patterns[k], alternative);
      }
    }
  }

  lemma AlternativeIsPossible(t: Table, error: Type, i: nat)
    requires Fits(t, error) && i < |Alternatives(error)|
    ensures Fits(t, Alternatives(error)[i]) && Assignable(t, Alternatives(error)[i], error)
    ensures Alternatives(error)[i].Class? ==> Alternatives(error)[i].name != []
  {
    if error.Union? {
      FitsAt(t, error.alternatives, i);
      assert Assignable(t, error.alternatives[i], error.alternatives[i]);
      OneIsSome(t, error.alternatives[i], error.alternatives, i);
    }
  }

  // The analyzer's loops

  /** Which patterns are reported as unreachable or repeated (LUM-S0025), and whether the
      match is reported as incomplete. */
  method CheckCoverage(t: Table, patterns: seq<Pattern>, hasElse: bool, error: Type) returns (repeated: seq<bool>,
            incomplete: bool)
    ensures incomplete == Incomplete(t, patterns, hasElse, error)
    ensures |repeated| == |patterns|
    ensures forall k | 0 <= k < |patterns| :: repeated[k] == Repeats(t, patterns[..k], patterns[k], error)
  {
    hide Assignable, Covered, Repeats, Open, Below, Covers;
    var alternatives := Alternatives(error);
    var coversSuccess, coversAllFailures, any := false, false, false;
    var covered: seq<bool> := seq(|alternatives|, _ => false);
    var open: seq<Type> := [];
    repeated := [];
    NothingCovered(t, alternatives);
    assert patterns[..0] == [];
    OpenNone(t);
    for k := 0 to |patterns|
      invariant |covered| == |alternatives| && |repeated| == k
      invariant any <==> exists j | 0 <= j < k :: IsResultPattern(patterns[j])
      invariant coversSuccess <==> Succes in patterns[..k]
      invariant coversAllFailures <==> Echec(None) in patterns[..k]
      invariant !error.Interface? ==> CoveredAre(t, covered, patterns[..k], alternatives)
      invariant error.Interface? ==> open == Open(t, patterns[..k])
      invariant forall j | 0 <= j < k :: repeated[j] == Repeats(t, patterns[..j], patterns[j], error)
    {
      var p := patterns[k];
      assert patterns[..k + 1] == patterns[..k] + [p];
      RepeatsIs(t, covered, patterns[..k], p, error);
      CoveredMore(t, covered, patterns[..k], p, alternatives);
      OpenNext(t, patterns[..k], p);
      var again := false;
      any := any || IsResultPattern(p);
      if p.Succes? {
        again := coversSuccess;
        coversSuccess := true;
      } else if p.Echec? && p.type_.Some? {
        if error.Interface? {
          again := Below(t, p.type_.value, open);
          if !again {
            open := open + [p.type_.value];
          }
        } else {
          again := !NewlyCovered(t, covered, alternatives, p.type_.value);
          covered := WithCovered(t, covered, alternatives, p);
        }
      } else if p.Echec? {
        again := coversAllFailures;
        coversAllFailures := true;
        covered := WithCovered(t, covered, alternatives, p);
      }
      repeated := repeated + [again];
    }
    assert patterns[..|patterns|] == patterns;
    if hasElse {
      coversSuccess, coversAllFailures := true, true;
    }
    if any && (!coversSuccess || !coversAllFailures) && !error.Interface? {
      coversAllFailures := forall i | 0 <= i < |covered| :: covered[i];
    }
    incomplete := any && (!coversSuccess || !coversAllFailures);
    UntypedCovers(t, patterns, alternatives);
  }

  /** The coverage vector: one entry for each alternative. */
  ghost predicate CoveredAre(t: Table, covered: seq<bool>, before: seq<Pattern>, alternatives: seq<Type>) {
    |covered| == |alternatives| && forall i | 0 <= i < |covered| :: covered[i] == Covered(t, before, alternatives[i])
  }

  function WithCovered(t: Table, covered: seq<bool>, alternatives: seq<Type>, p: Pattern): seq<bool>
    requires |covered| == |alternatives|
  {
    seq(|covered|, i requires 0 <= i < |covered| => covered[i] || Covers(t, p, alternatives[i]))
  }

  predicate NewlyCovered(t: Table, covered: seq<bool>, alternatives: seq<Type>, type_: Type)
    requires |covered| == |alternatives|
  {
    exists i | 0 <= i < |covered| :: !covered[i] && Assignable(t, alternatives[i], type_)
  }

  lemma NothingCovered(t: Table, alternatives: seq<Type>)
    ensures CoveredAre(t, seq(|alternatives|, _ => false), [], alternatives)
  {}

  /** What the vector says of a repetition. */
  lemma RepeatsIs(t: Table, covered: seq<bool>, before: seq<Pattern>, p: Pattern, error: Type)
    requires !error.Interface? ==> CoveredAre(t, covered, before, Alternatives(error))
    ensures p.Succes? ==> (Repeats(t, before, p, error) <==> Succes in before)
    ensures p.Echec? && p.type_.None? ==> (Repeats(t, before, p, error) <==> Echec(None) in before)
    ensures p.Echec? && p.type_.Some? && error.Interface? ==>
              (Repeats(t, before, p, error) <==> Below(t, p.type_.value, Open(t, before)))
    ensures p.Echec? && p.type_.Some? && !error.Interface? ==>
              (Repeats(t, before, p, error) <==> !NewlyCovered(t, covered, Alternatives(error), p.type_.value))
    ensures p.Autre? ==> !Repeats(t, before, p, error)
  {
    hide Assignable, Covered, Open;
  }

  /** An untyped pattern covers every alternative there is. */
  lemma UntypedCovers(t: Table, patterns: seq<Pattern>, alternatives: seq<Type>)
    ensures Echec(None) in patterns ==> AllCovered(t, patterns, alternatives)
  {
    hide Assignable;
    if Echec(None) in patterns {
      var k :| 0 <= k < |patterns| && patterns[k] == Echec(None);
      assert forall a: Type :: Covers(t, patterns[k], a);
    }
  }

  /** A pattern is repeated when what it takes was taken before: a second `Succès`, a second
      untyped `Échec`, or a typed one that covers no new alternative, or, where errors are
      open, is below an earlier one that was kept. */
  predicate Repeats(t: Table, before: seq<Pattern>, p: Pattern, error: Type) {
    match p
    case Succes => Succes in before
    case Echec(None) => Echec(None) in before
    case Echec(Some(type_)) =>
      if error.Interface? then Below(t, type_, Open(t, before))
      else forall i | 0 <= i < |Alternatives(error)| ::
             Assignable(t, Alternatives(error)[i], type_) ==> Covered(t, before, Alternatives(error)[i])
    case Autre => false
  }

  /** Of the typed patterns, those below none that was kept before. */
  function Open(t: Table, before: seq<Pattern>): seq<Type>
    decreases |before|
  {
    if before == [] then []
    else
      var p, kept := before[|before| - 1], Open(t, before[..|before| - 1]);
      if p.Echec? && p.type_.Some? && !Below(t, p.type_.value, kept) then kept + [p.type_.value] else kept
  }

  lemma OpenNext(t: Table, before: seq<Pattern>, p: Pattern)
    ensures Open(t, before + [p]) ==
            if p.Echec? && p.type_.Some? && !Below(t, p.type_.value, Open(t, before)) then Open(t, before) + [p.type_.value]
            else Open(t, before)
  {
    assert (before + [p])[..|before|] == before;
  }

  predicate TakenBy(t: Table, p: Pattern, type_: Type) {
    p.Echec? && p.type_.Some? && Assignable(t, type_, p.type_.value)
  }

  predicate TakenEarlier(t: Table, before: seq<Pattern>, type_: Type) {
    exists k | 0 <= k < |before| :: TakenBy(t, before[k], type_)
  }

  /** The patterns kept are earlier ones, and each earlier one is below one kept. */
  ghost predicate OpenAre(t: Table, open: seq<Type>, before: seq<Pattern>) {
    && (forall i | 0 <= i < |open| :: Echec(Some(open[i])) in before)
    && (forall k | 0 <= k < |before| && before[k].Echec? && before[k].type_.Some? :: Below(t, before[k].type_.value, open))
  }

  predicate Below(t: Table, type_: Type, open: seq<Type>) {
    exists i | 0 <= i < |open| :: Assignable(t, type_, open[i])
  }

  lemma {:induction false} OpenAreKept(t: Table, before: seq<Pattern>)
    ensures OpenAre(t, Open(t, before), before)
    decreases |before|
  {
    if before != [] {
      hide OpenAre, Below;
      var n := |before| - 1;
      OpenAreKept(t, before[..n]);
      OpenMore(t, Open(t, before[..n]), before[..n], before[n]);
      assert before[..n] + [before[n]] == before;
    } else {
      assert OpenAre(t, [], []);
    }
  }

  ghost predicate NoGapBefore(t: Table, before: seq<Pattern>, type_: Type) {
    forall k | 0 <= k < |before| && before[k].Echec? && before[k].type_.Some? :: NoGaps(t, type_, before[k].type_.value)
  }

  /** The patterns kept decide for all of them, unless there is a gap. */
  lemma OpenDecides(t: Table, before: seq<Pattern>, type_: Type)
    requires OneModule(t) && PatternsFit(t, before) && Fits(t, type_) && NoGapBefore(t, before, type_)
    ensures Below(t, type_, Open(t, before)) <==> TakenEarlier(t, before, type_)
  {
    hide Assignable, Fits, OneModule, Gap, NoGaps, Open;
    OpenAreKept(t, before);
    var open := Open(t, before);
    if Below(t, type_, open) {
      var i :| 0 <= i < |open| && Assignable(t, type_, open[i]);
      var k :| 0 <= k < |before| && before[k] == Echec(Some(open[i]));
      assert TakenBy(t, before[k], type_);
    }
    if k :| 0 <= k < |before| && TakenBy(t, before[k], type_) {
      var middle := before[k].type_.value;
      assert Below(t, middle, open);
      var i :| 0 <= i < |open| && Assignable(t, middle, open[i]);
      var j :| 0 <= j < |before| && before[j] == Echec(Some(open[i]));
      Transitive(t, type_, middle, open[i]);
    }
  }

  /** Whether the patterns kept decide for some earlier patterns and the type of the next. */
  predicate Decides(t: Table, before: seq<Pattern>, type_: Type) {
    PatternsFit(t, before) && Fits(t, type_) ==> (Below(t, type_, Open(t, before)) <==> TakenEarlier(t, before, type_))
  }

  /** The exact condition. */
  lemma OpenDecidesExactly(t: Table)
    requires OneModule(t)
    ensures (forall n: Name, m: Name | n != [] && m != [] :: !Gap(t, n, m)) <==> (forall before: seq<Pattern>, type_ :: Decides(t, before, type_))
  {
    hide Gap, Below, TakenEarlier, Open;
    if forall n: Name, m: Name | n != [] && m != [] :: !Gap(t, n, m) {
      forall before: seq<Pattern>, type_ ensures Decides(t, before, type_) {
        if PatternsFit(t, before) && Fits(t, type_) {
          FitNames(t, type_);
          forall k | 0 <= k < |before| && before[k].Echec? && before[k].type_.Some? ensures NoGaps(t, type_, before[k].type_.value) {
            FitNames(t, before[k].type_.value);
          }
          hide Fits, PatternsFit;
          OpenDecides(t, before, type_);
        }
      }
    } else {
      var n: Name, m: Name :| n != [] && m != [] && Gap(t, n, m);
      GapUndecided(t, n, m);
    }
  }

  /** After a pattern for errors, one for class `b` is not kept, and class `a` is below it only. */
  lemma GapUndecided(t: Table, a: Name, b: Name)
    requires OneModule(t) && a != [] && b != [] && Gap(t, a, b)
    ensures !Decides(t, [Echec(Some(ERREUR)), Echec(Some(Class(b)))], Class(a))
  {
    hide Gap, Assignable, Open;
    GapBreaks(t, a, b);
    var first, second := Echec(Some(ERREUR)), Echec(Some(Class(b)));
    var before := [first, second];
    OpenNext(t, [], first);
    OpenNext(t, [first], second);
    assert [] + [first] == [first] && [first] + [second] == before;
    assert Open(t, []) == [] by { OpenNone(t); }
    assert [] + [ERREUR] == [ERREUR];
    assert [ERREUR][0] == ERREUR;
    assert Below(t, Class(b), [ERREUR]);
    assert Open(t, before) == [ERREUR];
    assert TakenBy(t, before[1], Class(a));
  }

  lemma OpenNone(t: Table)
    ensures Open(t, []) == []
  {}

  lemma OpenMore(t: Table, open: seq<Type>, before: seq<Pattern>, p: Pattern)
    requires OpenAre(t, open, before)
    ensures var kept := if p.Echec? && p.type_.Some? && !Below(t, p.type_.value, open) then open + [p.type_.value] else open;
            OpenAre(t, kept, before + [p])
  {
    var kept := if p.Echec? && p.type_.Some? && !Below(t, p.type_.value, open) then open + [p.type_.value] else open;
    var after := before + [p];
    if p.Echec? && p.type_.Some? {
      assert Assignable(t, p.type_.value, p.type_.value);
    }
    hide Assignable;
    assert after[|before|] == p;
    forall i | 0 <= i < |kept| ensures Echec(Some(kept[i])) in after {
      if i < |open| {
        assert Echec(Some(open[i])) in before;
      }
    }
    forall k | 0 <= k < |after| && after[k].Echec? && after[k].type_.Some? ensures Below(t, after[k].type_.value, kept) {
      if k < |before| {
        assert Below(t, before[k].type_.value, open);
        var i :| 0 <= i < |open| && Assignable(t, before[k].type_.value, open[i]);
        assert kept[i] == open[i];
      } else if kept != open {
        assert kept[|open|] == p.type_.value;
      }
    }
  }

  lemma CoveredMore(t: Table, covered: seq<bool>, before: seq<Pattern>, p: Pattern, alternatives: seq<Type>)
    ensures CoveredAre(t, covered, before, alternatives) ==>
              CoveredAre(t, WithCovered(t, covered, alternatives, p), before + [p], alternatives)
    ensures CoveredAre(t, covered, before, alternatives) && !p.Echec? ==> CoveredAre(t, covered, before + [p], alternatives)
  {
    assert !p.Echec? ==> forall a: Type :: !Covers(t, p, a);
    hide Covers;
    forall i | 0 <= i < |alternatives|
      ensures Covered(t, before + [p], alternatives[i]) <==> Covered(t, before, alternatives[i]) || Covers(t, p, alternatives[i])
    {
      assert (before + [p])[|before|] == p;
      assert forall k | 0 <= k < |before| :: (before + [p])[k] == before[k];
    }
  }
}
