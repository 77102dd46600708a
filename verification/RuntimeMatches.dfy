/** What the tree walker's match does with the failures a program can produce, classes of
    imported modules among them, against what the analyzer accepts.

    At run time a class is known by an identity of its own, here the name the analyzer gives
    it from this module: plain for a class declared here, qualified for an imported one. The
    analyzer compares what follows the last dot.
 */
module RuntimeMatches {
  import opened Utf8
  import opened Assignability
  import opened MatchCoverage

  /** The classes and the interfaces of the whole program. */
  datatype Program = Program(classes: map<Name, ClassDecl>, interfaces: set<Name>) {
    /** The class and what it extends. */
    function Chain(n: Name): (line: seq<Name>)
      ensures forall a | a in line :: a in classes
    {
      Line(Table(classes, {}, {}), n, {})
    }

    /** The walker's test of an object's class: it, or a class it extends, has the name or
        lists the interface. */
    predicate Satisfies(class_: Name, name: Name) {
      exists a | a in Chain(class_) :: a == name || name in classes[a].interfaces
    }

    predicate Matches(class_: Name, x: Type)
      decreases x
    {
      match x
      case Class(name) => Satisfies(class_, name)
      case Interface(name) => Satisfies(class_, name)
      case Union(alternatives) => MatchesSome(class_, alternatives)
      case Builtin(name) => name == "Universel"
      case _ => false
    }

    predicate MatchesSome(class_: Name, xs: seq<Type>)
      decreases xs
    {
      xs != [] && (Matches(class_, xs[0]) || MatchesSome(class_, xs[1..]))
    }

    /** Classes and interfaces are those of the program; nothing is the bottom type. */
    predicate Known(x: Type)
      decreases x
    {
      match x
      case Class(name) => name in classes
      case Interface(name) => name in interfaces
      case Union(alternatives) => AllKnown(alternatives)
      case Bottom => false
      case _ => true
    }

    predicate AllKnown(xs: seq<Type>)
      decreases xs
    {
      xs == [] || (Known(xs[0]) && AllKnown(xs[1..]))
    }
  }

  /** The table is that of a module of the program: parents and interfaces exist, classes are
      no interfaces, and an imported class extends none of this module. */
  ghost predicate Declares(p: Program, t: Table) {
    && (forall n | n in t.classes :: n != [] && Plain(n) && n in p.classes && p.classes[n] == t.classes[n])
    && (forall n | n in p.classes :: n != [] && (Plain(n) ==> n in t.classes) && n !in p.interfaces)
    && (forall n, i | n in p.classes && i in p.classes[n].interfaces :: i in p.interfaces)
    && (forall n | n in p.classes && p.classes[n].parent.Some? ::
          p.classes[n].parent.value in p.classes && (!Plain(n) ==> !Plain(p.classes[n].parent.value)))
    && "Erreur" in p.interfaces
    && (forall i | i in p.interfaces :: i != [] && (i in t.errors ==> i == "Erreur"))
  }

  /** The classes taken for errors realize Erreur. */
  ghost predicate ErrorsRealize(p: Program, errors: set<Name>) {
    forall n | n in p.classes && n in errors :: p.Satisfies(n, "Erreur")
  }

  /** An imported name that the analyzer takes for a class declared here. */
  predicate Shadowed(t: Table, n: Name) {
    !Plain(n) && Unqualified(n) in t.classes
  }

  /** A class declared here lists an interface of that unqualified name, but not that one. */
  predicate Twin(p: Program, t: Table, n: Name, i: Name) {
    Realizes(t, Line(t, n, {}), Unqualified(i)) && !p.Satisfies(n, i)
  }

  ghost predicate NoClash(p: Program, t: Table) {
    && (forall n | n in p.classes :: !Shadowed(t, n))
    && (forall n, i | n in t.classes && i in p.interfaces :: !Twin(p, t, n, i))
  }

  // Chains

  lemma SelfInChain(p: Program, n: Name)
    requires n in p.classes
    ensures n in p.Chain(n)
  {
    assert p.Chain(n)[0] == n;
  }

  /** What a class above satisfies, the class satisfies. */
  lemma SatisfiedBelow(p: Program, n: Name, m: Name, name: Name)
    requires m in p.Chain(n) && p.Satisfies(m, name)
    ensures p.Satisfies(n, name)
  {
    var a :| a in p.Chain(m) && (a == name || name in p.classes[a].interfaces);
    AncestorsGoOn(Table(p.classes, {}, {}), n, m, a);
  }

  lemma {:induction false} MatchedBelow(p: Program, n: Name, m: Name, x: Type)
    requires m in p.Chain(n) && p.Matches(m, x)
    ensures p.Matches(n, x)
    decreases x, 0
  {
    hide Program.Chain, Program.Satisfies;
    match x {
      case Class(name) => SatisfiedBelow(p, n, m, name);
      case Interface(name) => SatisfiedBelow(p, n, m, name);
      case Union(alternatives) => SomeBelow(p, n, m, alternatives);
      case _ =>
    }
  }

  lemma {:induction false} SomeBelow(p: Program, n: Name, m: Name, xs: seq<Type>)
    requires m in p.Chain(n) && p.MatchesSome(m, xs)
    ensures p.MatchesSome(n, xs)
    decreases xs, 0
  {
    hide Program.Chain, Program.Matches;
    if p.Matches(m, xs[0]) {
      MatchedBelow(p, n, m, xs[0]);
    } else {
      SomeBelow(p, n, m, xs[1..]);
    }
  }

  /** The analyzer's chain of a class declared here is part of the real one. */
  lemma {:induction false} LineInChain(p: Program, t: Table, n: Name, visited: set<Name>, a: Name)
    requires Declares(p, t) && a in Line(t, n, visited)
    ensures a in Line(Table(p.classes, {}, {}), n, visited)
    decreases |t.classes.Keys - visited|
  {
    if a != n {
      assert t.classes.Keys - (visited + {n}) < t.classes.Keys - visited;
      SmallerSet(t.classes.Keys - (visited + {n}), t.classes.Keys - visited);
      LineInChain(p, t, t.classes[n].parent.value, visited + {n}, a);
    }
  }

  /** So is the chain along which it looks for errors, when no name is shadowed. */
  lemma {:induction false} ErrorLineInChain(p: Program, t: Table, n: Name, visited: set<Name>, a: Name)
    requires Declares(p, t) && NoClash(p, t) && a in ErrorLine(t, n, visited)
    ensures a in Line(Table(p.classes, {}, {}), n, visited)
    decreases |t.classes.Keys - visited|
  {
    hide Twin;
    if a != n {
      assert t.classes.Keys - (visited + {n}) < t.classes.Keys - visited;
      SmallerSet(t.classes.Keys - (visited + {n}), t.classes.Keys - visited);
      var above := t.classes[n].parent.value;
      assert above in p.classes && !Shadowed(t, above);
      if Plain(above) {
        PlainIsUnqualified(above);
        ErrorLineInChain(p, t, above, visited + {n}, a);
      }
    }
  }

  // What the analyzer allows, the walker matches

  /** Nothing is declared here under the unqualified name of an imported class. */
  lemma ImportedHasNoLine(p: Program, t: Table, n: Name)
    requires NoClash(p, t) && n in p.classes && !Plain(n)
    ensures Ancestors(t, n) == [] && ErrorLine(t, Unqualified(n), {}) == []
  {
    hide Twin;
    assert !Shadowed(t, n);
  }

  lemma ErrorSatisfies(p: Program, t: Table, n: Name)
    requires Declares(p, t) && NoClash(p, t) && ErrorsRealize(p, t.errors) && n in p.classes && IsError(t, Class(n))
    ensures p.Satisfies(n, "Erreur")
  {
    hide NoClash, Program.Satisfies, Program.Chain, Line, ErrorLine;
    if n !in t.errors {
      if !Plain(n) {
        ImportedHasNoLine(p, t, n);
      } else {
        PlainIsUnqualified(n);
        var a :| a in ErrorLine(t, n, {}) && ErrorParent(t, t.classes[a]);
        var above := t.classes[a].parent.value;
        ErrorLineInChain(p, t, n, {}, a);
        ChainIs(p, n);
        ParentInChain(p, a);
        SatisfiedBelow(p, a, above, "Erreur");
        SatisfiedBelow(p, n, a, "Erreur");
      }
    }
  }

  lemma ChainIs(p: Program, n: Name)
    ensures p.Chain(n) == Line(Table(p.classes, {}, {}), n, {})
  {}

  lemma ParentInChain(p: Program, a: Name)
    requires a in p.classes && p.classes[a].parent.Some? && p.classes[a].parent.value in p.classes
    ensures p.classes[a].parent.value in p.Chain(a)
  {
    var t, above := Table(p.classes, {}, {}), p.classes[a].parent.value;
    assert Up(t, above, 0) == Some(above);
    assert Up(t, a, 1) == Some(above);
    UpIsLine(t, a, {}, 1);
  }

  /** An object of a class is matched by every type the class is assignable to. */
  lemma {:induction false} AssignableIsMatched(p: Program, t: Table, n: Name, x: Type)
    requires Declares(p, t) && NoClash(p, t) && ErrorsRealize(p, t.errors)
    requires n in p.classes && p.Known(x) && Assignable(t, Class(n), x)
    ensures p.Matches(n, x)
    decreases x, 0
  {
    hide Declares, NoClash, Line, ErrorLine, Unqualified, Program.Chain;
    match x {
      case Class(name) => ClassIsMatched(p, t, n, name);
      case Interface(name) => InterfaceIsMatched(p, t, n, name);
      case Union(alternatives) => SomeIsMatched(p, t, n, alternatives);
      case _ =>
    }
  }

  lemma {:induction false} SomeIsMatched(p: Program, t: Table, n: Name, xs: seq<Type>)
    requires Declares(p, t) && NoClash(p, t) && ErrorsRealize(p, t.errors)
    requires n in p.classes && p.AllKnown(xs) && AssignableToSome(t, Class(n), xs)
    ensures p.MatchesSome(n, xs)
    decreases xs, 0
  {
    hide Declares, NoClash, ErrorsRealize, Assignable, Program.Matches, Program.Known;
    if Assignable(t, Class(n), xs[0]) {
      AssignableIsMatched(p, t, n, xs[0]);
    } else {
      SomeIsMatched(p, t, n, xs[1..]);
    }
  }

  lemma ClassIsMatched(p: Program, t: Table, n: Name, name: Name)
    requires Declares(p, t) && NoClash(p, t) && n in p.classes && name in p.classes && Assignable(t, Class(n), Class(name))
    ensures p.Satisfies(n, name)
  {
    SelfInChain(p, n);
    hide NoClash, Program.Chain, Line, ErrorLine;
    if n != name {
      if !Plain(n) {
        ImportedHasNoLine(p, t, n);
      } else {
        PlainIsUnqualified(n);
        LineInChain(p, t, n, {}, Unqualified(name));
        ChainIs(p, n);
        NotShadowed(p, t, name);
      }
    }
  }

  lemma NotShadowed(p: Program, t: Table, n: Name)
    requires NoClash(p, t) && n in p.classes && Unqualified(n) in t.classes
    ensures Unqualified(n) == n
  {
    hide Twin;
    assert !Shadowed(t, n);
    PlainIsUnqualified(n);
  }

  lemma InterfaceIsMatched(p: Program, t: Table, n: Name, name: Name)
    requires Declares(p, t) && NoClash(p, t) && ErrorsRealize(p, t.errors)
    requires n in p.classes && name in p.interfaces && Assignable(t, Class(n), Interface(name))
    ensures p.Satisfies(n, name)
  {
    hide NoClash, Program.Chain, Program.Satisfies, Line, ErrorLine;
    if name == "Erreur" && IsError(t, Class(n)) {
      ErrorSatisfies(p, t, n);
    } else if !Plain(n) {
      ImportedHasNoLine(p, t, n);
    } else {
      PlainIsUnqualified(n);
      NoTwin(p, t, n, name);
    }
  }

  lemma NoTwin(p: Program, t: Table, n: Name, i: Name)
    requires NoClash(p, t) && n in t.classes && i in p.interfaces
    ensures !Twin(p, t, n, i)
  {}

  /** What matches a type matches every type that one is assignable to. */
  lemma {:induction false} MatchGoesUp(p: Program, t: Table, n: Name, x: Type, y: Type)
    requires Declares(p, t) && NoClash(p, t) && ErrorsRealize(p, t.errors)
    requires n in p.classes && p.Known(x) && p.Known(y) && Assignable(t, x, y) && p.Matches(n, x)
    ensures p.Matches(n, y)
    decreases x, y, 1
  {
    hide Declares, NoClash, ErrorsRealize, Line, ErrorLine, Unqualified, Program.Chain;
    if x == y || y == UNIVERSEL {
    } else if y.Union? {
      UpToSome(p, t, n, x, y.alternatives);
    } else if x.Union? {
      UpFromAll(p, t, n, x.alternatives, y);
    } else if x.Class? {
      ClassGoesUp(p, t, n, x.name, y);
    } else if x.Interface? {
      InterfaceGoesUp(p, t, x.name, y);
    }
  }

  lemma {:induction false} UpToSome(p: Program, t: Table, n: Name, x: Type, ys: seq<Type>)
    requires Declares(p, t) && NoClash(p, t) && ErrorsRealize(p, t.errors)
    requires n in p.classes && p.Known(x) && p.AllKnown(ys) && AssignableToSome(t, x, ys) && p.Matches(n, x)
    ensures p.MatchesSome(n, ys)
    decreases x, ys, 0
  {
    hide Declares, NoClash, ErrorsRealize, Assignable, Program.Matches, Program.Known;
    if Assignable(t, x, ys[0]) {
      MatchGoesUp(p, t, n, x, ys[0]);
    } else {
      UpToSome(p, t, n, x, ys[1..]);
    }
  }

  lemma {:induction false} UpFromAll(p: Program, t: Table, n: Name, xs: seq<Type>, y: Type)
    requires Declares(p, t) && NoClash(p, t) && ErrorsRealize(p, t.errors)
    requires n in p.classes && p.AllKnown(xs) && p.Known(y) && (AllAssignable(t, xs, y) || (y == ERREUR && AllErrors(t, xs)))
    requires p.MatchesSome(n, xs)
    ensures p.Matches(n, y)
    decreases xs, y, 0
  {
    hide Declares, NoClash, ErrorsRealize, Program.Matches, Program.Known, IsError;
    if p.Matches(n, xs[0]) {
      MatchGoesUp(p, t, n, xs[0], y);
    } else {
      UpFromAll(p, t, n, xs[1..], y);
    }
  }

  lemma ClassGoesUp(p: Program, t: Table, n: Name, m: Name, y: Type)
    requires Declares(p, t) && NoClash(p, t) && ErrorsRealize(p, t.errors)
    requires n in p.classes && m in p.classes && p.Known(y) && Assignable(t, Class(m), y) && p.Satisfies(n, m)
    ensures p.Matches(n, y)
  {
    hide NoClash, ErrorsRealize, Assignable, Program.Known, Program.Matches, Program.Chain;
    assert m in p.Chain(n);
    AssignableIsMatched(p, t, m, y);
    MatchedBelow(p, n, m, y);
  }

  /** An interface is assignable to nothing else. */
  lemma InterfaceGoesUp(p: Program, t: Table, i: Name, y: Type)
    requires Declares(p, t) && i in p.interfaces && Assignable(t, Interface(i), y)
    ensures y == Interface(i) || y == UNIVERSEL || y.Union? || y.Bottom?
  {}

  // Within one module the two agree

  lemma {:induction false} ChainIsLine(p: Program, t: Table, n: Name, visited: set<Name>)
    requires Declares(p, t) && OneModule(t) && n in t.classes
    ensures Line(Table(p.classes, {}, {}), n, visited) == Line(t, n, visited)
    decreases |t.classes.Keys - visited|
  {
    if n !in visited && t.classes[n].parent.Some? {
      assert t.classes.Keys - (visited + {n}) < t.classes.Keys - visited;
      SmallerSet(t.classes.Keys - (visited + {n}), t.classes.Keys - visited);
      ChainIsLine(p, t, t.classes[n].parent.value, visited + {n});
    }
  }

  /** The walker matches an object of a class declared here against a type exactly when its
      class is assignable to it. */
  lemma {:induction false} MatchIsAssignability(p: Program, t: Table, n: Name, x: Type)
    requires Declares(p, t) && NoClash(p, t) && ErrorsRealize(p, t.errors) && OneModule(t)
    requires n in t.classes && p.Known(x)
    ensures p.Matches(n, x) <==> Assignable(t, Class(n), x)
    decreases x, 0
  {
    hide NoClash, ErrorsRealize, Line, ErrorLine, Unqualified, OneModule;
    if Assignable(t, Class(n), x) {
      AssignableIsMatched(p, t, n, x);
    } else {
      match x {
        case Class(name) =>
          if p.Satisfies(n, name) {
            SatisfiedIsAssignable(p, t, n, name);
          }
        case Interface(name) =>
          if p.Satisfies(n, name) {
            SatisfiedIsAssignable(p, t, n, name);
          }
        case Union(alternatives) => NoneIsMatched(p, t, n, alternatives);
        case _ =>
      }
    }
  }

  lemma ClassAbove(t: Table, n: Name, name: Name)
    requires Plain(n) && Plain(name) && name in Line(t, n, {})
    ensures Assignable(t, Class(n), Class(name))
  {
    PlainIsUnqualified(n);
    PlainIsUnqualified(name);
    hide Line, Unqualified;
  }

  lemma InterfaceAbove(t: Table, n: Name, a: Name, i: Name)
    requires Plain(n) && a in Line(t, n, {}) && i in t.classes[a].interfaces
    ensures Assignable(t, Class(n), Interface(i))
  {
    PlainIsUnqualified(n);
    hide Line, ErrorLine, Unqualified;
  }

  lemma SatisfiedIsAssignable(p: Program, t: Table, n: Name, name: Name)
    requires Declares(p, t) && OneModule(t) && n in t.classes && p.Satisfies(n, name)
    ensures name in p.classes ==> Assignable(t, Class(n), Class(name))
    ensures name in p.interfaces ==> Assignable(t, Class(n), Interface(name))
  {
    ChainIsLine(p, t, n, {});
    ChainIs(p, n);
    var a :| a in p.Chain(n) && (a == name || name in p.classes[a].interfaces);
    hide Program.Chain, Line, Assignable;
    if a == name {
      ClassAbove(t, n, name);
    } else {
      InterfaceAbove(t, n, a, name);
    }
  }

  lemma {:induction false} NoneIsMatched(p: Program, t: Table, n: Name, xs: seq<Type>)
    requires Declares(p, t) && NoClash(p, t) && ErrorsRealize(p, t.errors) && OneModule(t)
    requires n in t.classes && p.AllKnown(xs) && !AssignableToSome(t, Class(n), xs)
    ensures !p.MatchesSome(n, xs)
    decreases xs, 0
  {
    hide Declares, NoClash, ErrorsRealize, Assignable, OneModule, Program.Matches, Program.Known;
    if xs != [] {
      MatchIsAssignability(p, t, n, xs[0]);
      NoneIsMatched(p, t, n, xs[1..]);
    }
  }

  // Matches

  /** What a pattern takes at run time. */
  predicate TakesAtRunTime(p: Program, pattern: Pattern, v: Value) {
    match pattern
    case Succes => v.Success?
    case Echec(type_) => v.Failure? && (type_.None? || p.Matches(v.class_, type_.value))
    case Autre => false
  }

  predicate PatternsKnown(p: Program, patterns: seq<Pattern>) {
    forall k | 0 <= k < |patterns| && patterns[k].Echec? && patterns[k].type_.Some? :: p.Known(patterns[k].type_.value)
  }

  /** A value of the result that is matched: an error is an object of the error type. */
  predicate Arises(p: Program, error: Type, v: Value) {
    v.Failure? ==> v.class_ in p.classes && p.Matches(v.class_, error)
  }

  lemma {:induction false} SomeIsMatchedAt(p: Program, n: Name, xs: seq<Type>) returns (i: nat)
    requires p.MatchesSome(n, xs)
    ensures i < |xs| && p.Matches(n, xs[i])
    decreases xs
  {
    i := 0;
    if !p.Matches(n, xs[0]) {
      var k := SomeIsMatchedAt(p, n, xs[1..]);
      i := k + 1;
    }
  }

  lemma {:induction false} KnownAt(p: Program, xs: seq<Type>, k: nat)
    requires p.AllKnown(xs) && k < |xs|
    ensures p.Known(xs[k])
    decreases k
  {
    if k > 0 {
      KnownAt(p, xs[1..], k - 1);
    }
  }

  /** What the analyzer accepts never ends in the error that no branch matches, when no name
      clashes, whichever modules the classes come from. */
  lemma AcceptedAlwaysMatches(p: Program, t: Table, patterns: seq<Pattern>, hasElse: bool, error: Type, v: Value)
    requires Declares(p, t) && NoClash(p, t) && ErrorsRealize(p, t.errors)
    requires p.Known(error) && PatternsKnown(p, patterns) && Accepted(t, patterns, hasElse, error) && Arises(p, error, v)
    ensures hasElse || exists k | 0 <= k < |patterns| :: TakesAtRunTime(p, patterns[k], v)
  {
    hide Declares, NoClash, ErrorsRealize, Assignable, Program.Matches, Program.Known;
    if !hasElse {
      if v.Success? {
        var k :| 0 <= k < |patterns| && patterns[k] == Succes;
        assert TakesAtRunTime(p, patterns[k], v);
      } else if Echec(None) in patterns {
        var k :| 0 <= k < |patterns| && patterns[k] == Echec(None);
        assert TakesAtRunTime(p, patterns[k], v);
      } else {
        var i := AlternativeArises(p, error, v);
        var alternative := Alternatives(error)[i];
        assert Covered(t, patterns, alternative);
        var k :| 0 <= k < |patterns| && Covers(t, patterns[k], alternative);
        if patterns[k].type_.Some? {
          MatchGoesUp(p, t, v.class_, alternative, patterns[k].type_.value);
        }
        assert TakesAtRunTime(p, patterns[k], v);
      }
    }
  }

  lemma AlternativeArises(p: Program, error: Type, v: Value) returns (i: nat)
    requires v.Failure? && Arises(p, error, v) && p.Known(error)
    ensures i < |Alternatives(error)| && p.Known(Alternatives(error)[i]) && p.Matches(v.class_, Alternatives(error)[i])
  {
    i := 0;
    if error.Union? {
      i := SomeIsMatchedAt(p, v.class_, error.alternatives);
      KnownAt(p, error.alternatives, i);
    }
  }

  /** Whether a value is taken at run time, when it can arise and the match is accepted. */
  predicate Serves(p: Program, t: Table, patterns: seq<Pattern>, hasElse: bool, error: Type, v: Value) {
    p.Known(error) && PatternsKnown(p, patterns) && Accepted(t, patterns, hasElse, error) && Arises(p, error, v) ==>
      hasElse || exists k | 0 <= k < |patterns| :: TakesAtRunTime(p, patterns[k], v)
  }

  /** The exact condition: every accepted match takes every value at run time when no name
      clashes, and only then. */
  lemma AlwaysMatchesExactly(p: Program, t: Table)
    requires Declares(p, t) && ErrorsRealize(p, t.errors)
    ensures NoClash(p, t) <==> forall patterns, hasElse, error, v :: Serves(p, t, patterns, hasElse, error, v)
  {
    hide Declares, ErrorsRealize, Shadowed, Twin;
    if NoClash(p, t) {
      forall patterns, hasElse, error, v ensures Serves(p, t, patterns, hasElse, error, v) {
        if p.Known(error) && PatternsKnown(p, patterns) && Accepted(t, patterns, hasElse, error) && Arises(p, error, v) {
          hide *;
          AcceptedAlwaysMatches(p, t, patterns, hasElse, error, v);
        }
      }
    } else if n :| n in p.classes && Shadowed(t, n) {
      ShadowEscapes(p, t, n);
    } else {
      var n, i :| n in t.classes && i in p.interfaces && Twin(p, t, n, i);
      TwinEscapes(p, t, n, i);
    }
  }

  /** A match with one typed pattern, of the failures of one class. */
  lemma OnePattern(p: Program, t: Table, a: Name, x: Type)
    requires a in p.classes && p.Known(x) && Assignable(t, Class(a), x) && !p.Matches(a, x)
    ensures !Serves(p, t, [Succes, Echec(Some(x))], false, Class(a), Failure(a))
  {
    SelfInChain(p, a);
    hide Assignable, Program.Chain;
    var patterns := [Succes, Echec(Some(x))];
    assert IsResultPattern(patterns[0]) && Covers(t, patterns[1], Class(a));
  }

  /** A class declared here and an imported one of its unqualified name: the analyzer takes a
      pattern for the one to cover the other, and the walker does not. */
  lemma ShadowEscapes(p: Program, t: Table, n: Name)
    requires Declares(p, t) && n in p.classes && Shadowed(t, n)
    ensures !Serves(p, t, [Succes, Echec(Some(Class(Unqualified(n))))], false, Class(n), Failure(n))
  {
    hide Declares, Assignable, Accepted, Arises, TakesAtRunTime;
    var m := Unqualified(n);
    LastIsPlain(p, t, n);
    ShadowIsAssignable(t, n);
    ShadowStaysOut(p, t, n, m);
    OnePattern(p, t, n, Class(m));
  }

  lemma LastIsPlain(p: Program, t: Table, n: Name)
    requires Declares(p, t) && Shadowed(t, n)
    ensures Plain(Unqualified(n)) && Unqualified(n) in p.classes
  {
    hide Plain, Unqualified;
  }

  lemma ShadowIsAssignable(t: Table, n: Name)
    requires Unqualified(n) in t.classes && Plain(Unqualified(n))
    ensures Assignable(t, Class(n), Class(Unqualified(n)))
  {
    var m := Unqualified(n);
    PlainIsUnqualified(m);
    assert Ancestors(t, n)[0] == m;
  }

  lemma ShadowStaysOut(p: Program, t: Table, n: Name, m: Name)
    requires Declares(p, t) && n in p.classes && !Plain(n) && Plain(m) && m in p.classes
    ensures !p.Matches(n, Class(m))
  {
    ImportedStaysOut(p, t, n, {}, m);
    ChainIs(p, n);
    hide Program.Chain, Declares;
    assert !p.Satisfies(n, m);
  }

  /** An imported class extends none of this module. */
  lemma {:induction false} ImportedStaysOut(p: Program, t: Table, n: Name, visited: set<Name>, m: Name)
    requires Declares(p, t) && n in p.classes && !Plain(n) && Plain(m) && m in p.classes
    ensures m !in Line(Table(p.classes, {}, {}), n, visited)
    ensures forall a | a in Line(Table(p.classes, {}, {}), n, visited) :: m !in p.classes[a].interfaces
    decreases |p.classes.Keys - visited|
  {
    if n !in visited && p.classes[n].parent.Some? {
      assert p.classes.Keys - (visited + {n}) < p.classes.Keys - visited;
      SmallerSet(p.classes.Keys - (visited + {n}), p.classes.Keys - visited);
      ImportedStaysOut(p, t, p.classes[n].parent.value, visited + {n}, m);
    }
  }

  lemma TwinEscapes(p: Program, t: Table, n: Name, i: Name)
    requires Declares(p, t) && n in t.classes && i in p.interfaces && Twin(p, t, n, i)
    ensures !Serves(p, t, [Succes, Echec(Some(Interface(i)))], false, Class(n), Failure(n))
  {
    PlainIsUnqualified(n);
    hide Program.Chain, Line, ErrorLine, Unqualified;
    assert Assignable(t, Class(n), Interface(i));
    hide Assignable;
    OnePattern(p, t, n, Interface(i));
  }

  // Examples

  const ERREUR_X := ClassDecl(None, ["Erreur"])

  /** This module declares an error class X and imports one from M. */
  const SHADOWING := Program(map["X" := ERREUR_X, "M.X" := ERREUR_X], {"Erreur"})
  const SHADOWED := Table(map["X" := ERREUR_X], {"X", "M.X"}, {"X", "M.X"})

  /** `Succès` and `Échec(e: X)` are accepted for failures of M.X, and take none. */
  lemma ShadowedFailureEscapes()
    ensures Declares(SHADOWING, SHADOWED) && ErrorsRealize(SHADOWING, SHADOWED.errors)
    ensures var patterns := [Succes, Echec(Some(Class("X")))];
            && Accepted(SHADOWED, patterns, false, Class("M.X")) && Arises(SHADOWING, Class("M.X"), Failure("M.X"))
            && forall k | 0 <= k < |patterns| :: !TakesAtRunTime(SHADOWING, patterns[k], Failure("M.X"))
  {
    LastPart();
    SelfInChain(SHADOWING, "X");
    SelfInChain(SHADOWING, "M.X");
    assert Shadowed(SHADOWED, "M.X");
    ShadowEscapes(SHADOWING, SHADOWED, "M.X");
  }

  // Errors

  /** The classes collected as errors realize Erreur at run time, when the imported ones do. */
  lemma CollectedErrorsRealize(p: Program, t: Table, errors: set<Name>)
    requires Declares(p, t) && ErrorsRealize(p, t.errors) && Least(t, errors)
    ensures ErrorsRealize(p, errors)
  {
    var s := t.errors + set n | n in t.classes && p.Satisfies(n, "Erreur");
    hide Program.Chain, Line;
    forall n | n in t.classes ensures Settled(t, s, n) {
      if Joins(t, s, n) {
        SelfInChain(p, n);
        if !ListsErreur(t.classes[n]) {
          var above := t.classes[n].parent.value;
          ParentInChain(p, n);
          SatisfiedBelow(p, n, above, "Erreur");
        }
      }
    }
    assert ClosedErrors(t, s);
  }
}
