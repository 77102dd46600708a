/** The analyzer's subtyping relation over the classes of one module: the rules in the
    order in which they are tried, and transitivity.
 */
module Assignability {
  import opened Utf8

  type Name = string

  datatype Type =
    | Builtin(name: Name)
    | Class(name: Name)
    | Interface(name: Name)
    | Generic(name: Name, arguments: seq<Type>)
    | Union(alternatives: seq<Type>)
    | Parameter(name: Name)
    | Integer(value: nat)
    | Bottom

  datatype ClassDecl = ClassDecl(parent: Option<Name>, interfaces: seq<Name>)

  /** The classes declared, the names that are types at all, and those taken for errors. */
  datatype Table = Table(classes: map<Name, ClassDecl>, types: set<Name>, errors: set<Name>)

  const ERREUR := Interface("Erreur")
  const UNIVERSEL := Builtin("Universel")
  const ENTIER := Builtin("Entier")
  const DECIMAL := Builtin("Décimal")

  /** What follows the last dot. */
  function Unqualified(name: Name): Name
    decreases |name|
  {
    if name == [] then [] else if '.' in name[1..] then Unqualified(name[1..]) else if name[0] == '.' then name[1..] else name
  }

  predicate Plain(name: Name) {
    '.' !in name
  }

  lemma PlainIsUnqualified(name: Name)
    requires Plain(name)
    ensures Unqualified(name) == name
  {}

  // Class chains

  /** The classes from `n` up, none met twice. */
  function Line(t: Table, n: Name, visited: set<Name>): (line: seq<Name>)
    ensures forall a | a in line :: a in t.classes
    decreases |t.classes.Keys - visited|
  {
    if n !in t.classes || n in visited then []
    else
      assert t.classes.Keys - (visited + {n}) < t.classes.Keys - visited;
      SmallerSet(t.classes.Keys - (visited + {n}), t.classes.Keys - visited);
      [n] + (match t.classes[n].parent
             case None => []
             case Some(p) => Line(t, p, visited + {n}))
  }

  /** The same line as the search for errors walks it: a parent must be a type, and leads
      to a declaration by its unqualified name. */
  function ErrorLine(t: Table, n: Name, visited: set<Name>): (line: seq<Name>)
    ensures forall a | a in line :: a in t.classes
    decreases |t.classes.Keys - visited|
  {
    if n !in t.classes || n in visited then []
    else
      assert t.classes.Keys - (visited + {n}) < t.classes.Keys - visited;
      SmallerSet(t.classes.Keys - (visited + {n}), t.classes.Keys - visited);
      [n] + (match t.classes[n].parent
             case None => []
             case Some(p) => if p in t.types then ErrorLine(t, Unqualified(p), visited + {n}) else [])
  }

  lemma SmallerSet(a: set<Name>, b: set<Name>)
    requires a < b
    ensures |a| < |b|
  {
    assert |b - a| > 0;
    assert b == a + (b - a);
  }

  /** The declaration a class type leads to, by its unqualified name. */
  function Ancestors(t: Table, class_: Name): seq<Name> {
    Line(t, Unqualified(class_), {})
  }

  predicate Realizes(t: Table, line: seq<Name>, i: Name)
    requires forall a | a in line :: a in t.classes
  {
    exists a | a in line :: exists x | x in t.classes[a].interfaces :: Unqualified(x) == i
  }

  predicate ParentIsError(t: Table, line: seq<Name>)
    requires forall a | a in line :: a in t.classes
  {
    exists a | a in line :: ErrorParent(t, t.classes[a])
  }

  predicate ErrorParent(t: Table, c: ClassDecl) {
    c.parent.Some? && c.parent.value in t.types && c.parent.value in t.errors
  }

  predicate IsError(t: Table, x: Type)
    decreases x
  {
    match x
    case Bottom => true
    case Union(alternatives) => alternatives != [] && AllErrors(t, alternatives)
    case Class(name) => name != [] && (name in t.errors || ParentIsError(t, ErrorLine(t, Unqualified(name), {})))
    case Interface(name) => name != [] && name in t.errors
    case _ => false
  }

  predicate AllErrors(t: Table, xs: seq<Type>)
    decreases xs
  {
    xs == [] || (IsError(t, xs[0]) && AllErrors(t, xs[1..]))
  }

  predicate AllBottom(xs: seq<Type>) {
    forall k | 0 <= k < |xs| :: xs[k].Bottom?
  }

  predicate IsResultat(x: Type) {
    x.Generic? && x.name == "Résultat" && |x.arguments| == 2
  }

  predicate Assignable(t: Table, source: Type, target: Type)
    decreases source, target
  {
    if source.Bottom? || target.Bottom? || source == target then true
    else if target == ERREUR && IsError(t, source) then true
    else if target == UNIVERSEL then true
    else if source == ENTIER && target == DECIMAL then true
    else if target.Union? then AssignableToSome(t, source, target.alternatives)
    else if source.Union? then AllAssignable(t, source.alternatives, target)
    else if IsResultat(source) && IsResultat(target) then
      Assignable(t, source.arguments[0], target.arguments[0]) && Assignable(t, source.arguments[1], target.arguments[1])
    else if source.Generic? && target.Generic? && source.name == target.name
            && |source.arguments| == |target.arguments| && source.arguments != [] && AllBottom(source.arguments) then true
    else if source.Class? && target.Class? then Unqualified(target.name) in Ancestors(t, source.name)
    else if source.Class? && target.Interface? then Realizes(t, Ancestors(t, source.name), Unqualified(target.name))
    else false
  }

  predicate AssignableToSome(t: Table, source: Type, targets: seq<Type>)
    decreases source, targets
  {
    targets != [] && (Assignable(t, source, targets[0]) || AssignableToSome(t, source, targets[1..]))
  }

  predicate AllAssignable(t: Table, sources: seq<Type>, target: Type)
    decreases sources, target
  {
    sources == [] || (Assignable(t, sources[0], target) && AllAssignable(t, sources[1..], target))
  }

  // Chains go on upwards

  function Up(t: Table, n: Name, k: nat): Option<Name>
    decreases k
  {
    if n !in t.classes then None
    else if k == 0 then Some(n)
    else match t.classes[n].parent
      case None => None
      case Some(p) => Up(t, p, k - 1)
  }

  lemma {:induction false} UpTwice(t: Table, n: Name, j: nat, k: nat)
    requires Up(t, n, j).Some?
    ensures Up(t, Up(t, n, j).value, k) == Up(t, n, j + k)
    decreases j
  {
    if j > 0 {
      UpTwice(t, t.classes[n].parent.value, j - 1, k);
    }
  }

  lemma {:induction false} UpBelow(t: Table, n: Name, j: nat, k: nat)
    requires Up(t, n, k).Some? && j <= k
    ensures Up(t, n, j).Some?
    decreases j
  {
    if j > 0 {
      UpBelow(t, t.classes[n].parent.value, j - 1, k - 1);
    }
  }

  lemma {:induction false} LineIsUp(t: Table, n: Name, visited: set<Name>, m: Name) returns (k: nat)
    requires m in Line(t, n, visited)
    ensures Up(t, n, k) == Some(m)
    decreases |t.classes.Keys - visited|
  {
    if m == n {
      k := 0;
    } else {
      assert t.classes.Keys - (visited + {n}) < t.classes.Keys - visited;
      SmallerSet(t.classes.Keys - (visited + {n}), t.classes.Keys - visited);
      var j := LineIsUp(t, t.classes[n].parent.value, visited + {n}, m);
      k := j + 1;
    }
  }

  ghost predicate Unvisited(t: Table, n: Name, k: nat, visited: set<Name>) {
    forall j: nat | j <= k && Up(t, n, j).Some? :: Up(t, n, j).value !in visited
  }

  /** Every class above is met, even where the chain closes on itself. */
  lemma {:induction false} UpIsLine(t: Table, n: Name, visited: set<Name>, k: nat)
    requires Up(t, n, k).Some? && Unvisited(t, n, k, visited)
    ensures Up(t, n, k).value in Line(t, n, visited)
    decreases k
  {
    assert Up(t, n, 0) == Some(n);
    if k > 0 {
      var p := t.classes[n].parent.value;
      if j: nat :| j < k && Up(t, p, j) == Some(n) {
        assert Up(t, n, j + 1) == Some(n);
        UpTwice(t, n, j + 1, k - (j + 1));
        UpIsLine(t, n, visited, k - (j + 1));
      } else {
        forall j: nat | j <= k - 1 && Up(t, p, j).Some? ensures Up(t, p, j).value !in visited + {n} {
          assert Up(t, n, j + 1) == Up(t, p, j);
        }
        UpIsLine(t, p, visited + {n}, k - 1);
      }
    }
  }

  /** The ancestors of an ancestor are ancestors. */
  lemma AncestorsGoOn(t: Table, n: Name, m: Name, o: Name)
    requires m in Line(t, n, {}) && o in Line(t, m, {})
    ensures o in Line(t, n, {})
  {
    var j := LineIsUp(t, n, {}, m);
    var k := LineIsUp(t, m, {}, o);
    UpTwice(t, n, j, k);
    UpIsLine(t, n, {}, j + k);
  }

  // Transitivity

  /** One module: its classes are types and extend classes by unqualified names. */
  predicate OneModule(t: Table) {
    t.classes.Keys <= t.types && forall n | n in t.classes :: t.classes[n].parent.Some? ==> Plain(t.classes[n].parent.value)
  }

  lemma {:induction false} ErrorLineIsLine(t: Table, n: Name, visited: set<Name>)
    requires OneModule(t)
    ensures ErrorLine(t, n, visited) == Line(t, n, visited)
    decreases |t.classes.Keys - visited|
  {
    if n in t.classes && n !in visited && t.classes[n].parent.Some? {
      assert t.classes.Keys - (visited + {n}) < t.classes.Keys - visited;
      SmallerSet(t.classes.Keys - (visited + {n}), t.classes.Keys - visited);
      PlainIsUnqualified(t.classes[n].parent.value);
      ErrorLineIsLine(t, t.classes[n].parent.value, visited + {n});
    }
  }

  /** No interface but Erreur is an error, unions hold no unions, and nothing is or contains
      the bottom type. */
  predicate Fits(t: Table, x: Type)
    decreases x
  {
    match x
    case Class(name) => name != []
    case Interface(name) => name != [] && (name in t.errors ==> name == "Erreur")
    case Generic(_, arguments) => AllFit(t, arguments)
    case Union(alternatives) => AllFit(t, alternatives) && forall k | 0 <= k < |alternatives| :: !alternatives[k].Union?
    case Bottom => false
    case _ => true
  }

  predicate AllFit(t: Table, xs: seq<Type>)
    decreases xs
  {
    xs == [] || (Fits(t, xs[0]) && AllFit(t, xs[1..]))
  }

  /** The classes a type names. */
  function ClassNames(x: Type): set<Name>
    decreases x
  {
    match x
    case Class(name) => {name}
    case Generic(_, arguments) => AllClassNames(arguments)
    case Union(alternatives) => AllClassNames(alternatives)
    case _ => {}
  }

  function AllClassNames(xs: seq<Type>): set<Name>
    decreases xs
  {
    if xs == [] then {} else ClassNames(xs[0]) + AllClassNames(xs[1..])
  }

  lemma {:induction false} NamesAt(xs: seq<Type>, k: nat)
    requires k < |xs|
    ensures ClassNames(xs[k]) <= AllClassNames(xs)
    decreases k
  {
    if k > 0 {
      NamesAt(xs[1..], k - 1);
    }
  }

  /** A class `a` that counts as `b` without being the error that `b` is: `b` is an error by
      its own name, as an imported class can be, and nothing says so of `a`. */
  ghost predicate Gap(t: Table, a: Name, b: Name) {
    && a != b && Unqualified(b) in Ancestors(t, a) && b in t.errors
    && a !in t.errors && !ParentIsError(t, ErrorLine(t, Unqualified(a), {})) && !Realizes(t, Ancestors(t, a), "Erreur")
  }

  ghost predicate NoGaps(t: Table, a: Type, b: Type) {
    forall n, m | n in ClassNames(a) && m in ClassNames(b) :: !Gap(t, n, m)
  }

  lemma {:induction false} FitsAt(t: Table, xs: seq<Type>, k: nat)
    requires AllFit(t, xs) && k < |xs|
    ensures Fits(t, xs[k])
    decreases k
  {
    if k > 0 {
      FitsAt(t, xs[1..], k - 1);
    }
  }

  lemma {:induction false} SomeIsOne(t: Table, source: Type, targets: seq<Type>) returns (k: nat)
    requires AssignableToSome(t, source, targets)
    ensures k < |targets| && Assignable(t, source, targets[k])
    decreases |targets|
  {
    if Assignable(t, source, targets[0]) {
      k := 0;
    } else {
      var j := SomeIsOne(t, source, targets[1..]);
      k := j + 1;
    }
  }

  lemma {:induction false} OneIsSome(t: Table, source: Type, targets: seq<Type>, k: nat)
    requires k < |targets| && Assignable(t, source, targets[k])
    ensures AssignableToSome(t, source, targets)
    decreases k
  {
    if k > 0 {
      OneIsSome(t, source, targets[1..], k - 1);
    }
  }

  lemma {:induction false} AllAreEach(t: Table, sources: seq<Type>, target: Type, k: nat)
    requires AllAssignable(t, sources, target) && k < |sources|
    ensures Assignable(t, sources[k], target)
    decreases k
  {
    if k > 0 {
      AllAreEach(t, sources[1..], target, k - 1);
    }
  }

  lemma {:induction false} EachIsAll(t: Table, sources: seq<Type>, target: Type)
    requires forall k | 0 <= k < |sources| :: Assignable(t, sources[k], target)
    ensures AllAssignable(t, sources, target)
    decreases |sources|
  {
    if sources != [] {
      EachIsAll(t, sources[1..], target);
    }
  }

  lemma {:induction false} ErrorAt(t: Table, xs: seq<Type>, k: nat)
    requires AllErrors(t, xs) && k < |xs|
    ensures IsError(t, xs[k])
    decreases k
  {
    if k > 0 {
      ErrorAt(t, xs[1..], k - 1);
    }
  }

  /** A union reaches a target that is none exactly by its alternatives. */
  lemma FromUnion(t: Table, source: Type, target: Type, k: nat)
    requires source.Union? && !target.Union? && Assignable(t, source, target) && k < |source.alternatives|
    ensures Assignable(t, source.alternatives[k], target)
  {
    if target == ERREUR && IsError(t, source) {
      ErrorAt(t, source.alternatives, k);
    } else if target != UNIVERSEL && !target.Bottom? {
      AllAreEach(t, source.alternatives, target, k);
    }
  }

  lemma ToUnion(t: Table, source: Type, target: Type) returns (k: nat)
    requires target.Union? && source != target && !source.Bottom? && Assignable(t, source, target)
    ensures k < |target.alternatives| && Assignable(t, source, target.alternatives[k])
  {
    k := SomeIsOne(t, source, target.alternatives);
  }

  lemma FewerNames(t: Table, a: Type, b: Type, n: Type, m: Type)
    requires NoGaps(t, a, b) && ClassNames(n) <= ClassNames(a) && ClassNames(m) <= ClassNames(b)
    ensures NoGaps(t, n, m)
  {}

  /** Assignability is transitive, through unions, results, numbers, classes and interfaces,
      unless there is a gap. */
  lemma {:induction false} Transitive(t: Table, a: Type, b: Type, c: Type)
    requires OneModule(t) && Fits(t, a) && Fits(t, b) && Fits(t, c) && Assignable(t, a, b) && Assignable(t, b, c)
    requires NoGaps(t, a, b)
    ensures Assignable(t, a, c)
    decreases a, b, c
  {
    hide Gap, NoGaps;
    if a == b || b == c || c == UNIVERSEL {
    } else if c.Union? {
      var k := ToUnion(t, b, c);
      FitsAt(t, c.alternatives, k);
      Transitive(t, a, b, c.alternatives[k]);
      OneIsSome(t, a, c.alternatives, k);
    } else if b.Union? {
      var k := ToUnion(t, a, b);
      FitsAt(t, b.alternatives, k);
      FromUnion(t, b, c, k);
      NamesAt(b.alternatives, k);
      FewerNames(t, a, b, a, b.alternatives[k]);
      Transitive(t, a, b.alternatives[k], c);
    } else if a.Union? {
      forall k | 0 <= k < |a.alternatives| ensures Assignable(t, a.alternatives[k], c) {
        FitsAt(t, a.alternatives, k);
        FromUnion(t, a, b, k);
        NamesAt(a.alternatives, k);
        FewerNames(t, a, b, a.alternatives[k], b);
        Transitive(t, a.alternatives[k], b, c);
      }
      EachIsAll(t, a.alternatives, c);
    } else if IsResultat(a) && IsResultat(b) && IsResultat(c) {
      forall k | 0 <= k < 2 ensures Assignable(t, a.arguments[k], c.arguments[k]) {
        FitsAt(t, a.arguments, k);
        FitsAt(t, b.arguments, k);
        FitsAt(t, c.arguments, k);
        NamesAt(a.arguments, k);
        NamesAt(b.arguments, k);
        FewerNames(t, a, b, a.arguments[k], b.arguments[k]);
        Transitive(t, a.arguments[k], b.arguments[k], c.arguments[k]);
      }
    } else {
      AtomsAreTransitive(t, a, b, c);
    }
  }

  /** Arguments of a type without bottom are not bottom. */
  lemma FitsHasNoBottom(t: Table, a: Type)
    requires Fits(t, a)
    ensures a.Generic? && a.arguments != [] ==> !AllBottom(a.arguments)
  {
    if a.Generic? && a.arguments != [] {
      FitsAt(t, a.arguments, 0);
    }
  }

  lemma AtomsAreTransitive(t: Table, a: Type, b: Type, c: Type)
    requires OneModule(t) && Fits(t, a) && Fits(t, b) && Fits(t, c) && Assignable(t, a, b) && Assignable(t, b, c)
    requires a != b && b != c && c != UNIVERSEL && !a.Union? && !b.Union? && !c.Union?
    requires !(IsResultat(a) && IsResultat(b) && IsResultat(c)) && NoGaps(t, a, b)
    ensures Assignable(t, a, c)
  {
    hide Line, ErrorLine, Unqualified, Gap;
    FitsHasNoBottom(t, a);
    FitsHasNoBottom(t, b);
    if a.Class? && b.Class? {
      assert a.name in ClassNames(a) && b.name in ClassNames(b);
      if c == ERREUR {
        ErrorsBelowExactly(t, a.name, b.name);
      } else {
        ClassesAreTransitive(t, a.name, b.name, c);
      }
    }
  }

  /** Below anything but Erreur classes are transitive, whatever their names. */
  lemma ClassesAreTransitive(t: Table, a: Name, b: Name, c: Type)
    requires a != b && Fits(t, c) && !c.Union? && c != ERREUR
    requires Assignable(t, Class(a), Class(b)) && Assignable(t, Class(b), c)
    ensures Assignable(t, Class(a), c)
  {
    hide Line, ErrorLine, Unqualified;
    if c.Class? && c != Class(b) {
      AncestorsGoOn(t, Unqualified(a), Unqualified(b), Unqualified(c.name));
    } else if c.Interface? {
      RealizesBelow(t, Unqualified(a), Unqualified(b), Unqualified(c.name));
    }
  }

  lemma RealizesBelow(t: Table, a: Name, b: Name, i: Name)
    requires b in Line(t, a, {}) && Realizes(t, Line(t, b, {}), i)
    ensures Realizes(t, Line(t, a, {}), i)
  {
    var o :| o in Line(t, b, {}) && exists x | x in t.classes[o].interfaces :: Unqualified(x) == i;
    AncestorsGoOn(t, a, b, o);
  }

  /** A class below an error is an error exactly when there is no gap. */
  lemma ErrorsBelowExactly(t: Table, a: Name, b: Name)
    requires OneModule(t) && a != [] && b != [] && a != b && Unqualified(b) in Ancestors(t, a) && Assignable(t, Class(b), ERREUR)
    ensures Assignable(t, Class(a), ERREUR) <==> !Gap(t, a, b)
  {
    ErreurIsPlain();
    hide Unqualified;
    var n, m := Unqualified(a), Unqualified(b);
    ErrorLineIsLine(t, n, {});
    ErrorLineIsLine(t, m, {});
    if b in t.errors {
    } else if ParentIsError(t, Line(t, m, {})) {
      var o :| o in Line(t, m, {}) && ErrorParent(t, t.classes[o]);
      AncestorsGoOn(t, n, m, o);
    } else {
      RealizesBelow(t, n, m, "Erreur");
    }
  }

  lemma ErreurIsPlain()
    ensures Unqualified("Erreur") == "Erreur"
  {
    PlainIsUnqualified("Erreur");
  }

  /** Among unqualified names there is no gap. */
  lemma PlainHasNoGap(t: Table, a: Name, b: Name)
    requires OneModule(t) && Plain(a) && Plain(b)
    ensures !Gap(t, a, b)
  {
    PlainIsUnqualified(a);
    PlainIsUnqualified(b);
    ErrorLineIsLine(t, a, {});
    if a != b && b in Line(t, a, {}) && b in t.errors {
      var k := LineIsUp(t, a, {}, b);
      ParentOf(t, a, b, k);
    }
  }

  /** The exact condition: assignability over a table is transitive when the table has no
      gap, and only then. */
  lemma TransitiveExactly(t: Table)
    requires OneModule(t)
    ensures (forall n: Name, m: Name | n != [] && m != [] :: !Gap(t, n, m)) <==>
            (forall a, b, c | Fits(t, a) && Fits(t, b) && Fits(t, c) && Assignable(t, a, b) && Assignable(t, b, c) ::
               Assignable(t, a, c))
  {
    hide Gap, Assignable;
    if forall n: Name, m: Name | n != [] && m != [] :: !Gap(t, n, m) {
      forall a, b, c | Fits(t, a) && Fits(t, b) && Fits(t, c) && Assignable(t, a, b) && Assignable(t, b, c)
        ensures Assignable(t, a, c)
      {
        FitNames(t, a);
        FitNames(t, b);
        Transitive(t, a, b, c);
      }
    } else {
      var n: Name, m: Name :| n != [] && m != [] && Gap(t, n, m);
      GapBreaks(t, n, m);
    }
  }

  lemma {:induction false} FitNames(t: Table, x: Type)
    requires Fits(t, x)
    ensures [] !in ClassNames(x)
    decreases x, 0
  {
    if x.Generic? {
      AllFitNames(t, x.arguments);
    } else if x.Union? {
      AllFitNames(t, x.alternatives);
    }
  }

  lemma {:induction false} AllFitNames(t: Table, xs: seq<Type>)
    requires AllFit(t, xs)
    ensures [] !in AllClassNames(xs)
    decreases xs, 0
  {
    if xs != [] {
      FitNames(t, xs[0]);
      AllFitNames(t, xs[1..]);
    }
  }

  /** A gap is a triple on which transitivity fails. */
  lemma GapBreaks(t: Table, a: Name, b: Name)
    requires OneModule(t) && a != [] && b != [] && Gap(t, a, b)
    ensures Fits(t, Class(a)) && Fits(t, Class(b)) && Fits(t, ERREUR)
    ensures Assignable(t, Class(a), Class(b)) && Assignable(t, Class(b), ERREUR) && !Assignable(t, Class(a), ERREUR)
  {
    ErreurIsPlain();
    hide Unqualified, Line, ErrorLine;
  }

  lemma ParentOf(t: Table, a: Name, b: Name, k: nat)
    requires OneModule(t) && Up(t, a, k) == Some(b) && a != b && b in t.errors
    ensures ParentIsError(t, Line(t, a, {}))
  {
    UpBelow(t, a, k - 1, k);
    var o := Up(t, a, k - 1).value;
    UpTwice(t, a, k - 1, 1);
    UpIsLine(t, a, {}, k - 1);
    assert Up(t, o, 1) == Some(b);
    assert t.classes[o].parent == Some(b) && b in t.classes;
  }

  // What does not hold

  /** A gap there is: a class counts as an imported one of the same unqualified name, but not
      as the error that one is. */
  lemma QualifiedNamesAreNotTransitive()
    ensures var t := Table(map["X" := ClassDecl(None, [])], {"X", "M.X"}, {"M.X"});
            && OneModule(t) && Gap(t, "X", "M.X")
            && Assignable(t, Class("X"), Class("M.X")) && Assignable(t, Class("M.X"), ERREUR)
            && !Assignable(t, Class("X"), ERREUR)
  {
    LastPart();
    hide Unqualified;
    var t := Table(map["X" := ClassDecl(None, [])], {"X", "M.X"}, {"M.X"});
    assert Line(t, "X", {}) == ["X"];
    assert ErrorLine(t, "X", {}) == ["X"];
    assert Gap(t, "X", "M.X");
    GapBreaks(t, "X", "M.X");
  }

  lemma LastPart()
    ensures Unqualified("M.X") == "X" && Unqualified("X") == "X"
  {
    assert "M.X"[1..] == ".X" && ".X"[1..] == "X" && '.' in ".X" && '.' !in "X";
    assert '.' == "M.X"[1..][0];
    assert Unqualified(".X") == "X";
  }

  /** Between unions: they are equal, or one alternative of the target takes every
      alternative of the source. */
  lemma UnionsWidenExactly(t: Table, xs: seq<Type>, ys: seq<Type>)
    requires xs != [] && forall k | 0 <= k < |ys| :: !ys[k].Union? && !ys[k].Bottom?
    ensures Assignable(t, Union(xs), Union(ys)) <==>
            xs == ys || exists k | 0 <= k < |ys| :: TakesAll(t, xs, ys[k])
  {
    if Assignable(t, Union(xs), Union(ys)) && xs != ys {
      var k := ToUnion(t, Union(xs), Union(ys));
      forall j | 0 <= j < |xs| ensures Assignable(t, xs[j], ys[k]) {
        FromUnion(t, Union(xs), ys[k], j);
      }
      assert TakesAll(t, xs, ys[k]);
    }
    if k :| 0 <= k < |ys| && TakesAll(t, xs, ys[k]) {
      EachIsAll(t, xs, ys[k]);
      OneIsSome(t, Union(xs), ys, k);
    }
  }

  predicate TakesAll(t: Table, xs: seq<Type>, y: Type) {
    forall j | 0 <= j < |xs| :: Assignable(t, xs[j], y)
  }

  /** Hence a union of two built-in types is not assignable to the union of these and a
      third. */
  lemma UnionsDoNotWiden(t: Table, a: Name, b: Name, c: Name)
    requires |{a, b, c, "Entier", "Universel"}| == 5
    ensures !Assignable(t, Union([Builtin(a), Builtin(b)]), Union([Builtin(a), Builtin(b), Builtin(c)]))
  {
    var xs, ys := [Builtin(a), Builtin(b)], [Builtin(a), Builtin(b), Builtin(c)];
    UnionsWidenExactly(t, xs, ys);
    forall k | 0 <= k < |ys| ensures !TakesAll(t, xs, ys[k]) {
      assert !Assignable(t, xs[0], ys[k]) || !Assignable(t, xs[1], ys[k]);
    }
  }

  // The loops

  /** Whether a class declared here, or one it extends, is or extends a given class, or
      realizes a given interface. */
  method WalksTo(t: Table, source: Name, target: Type) returns (found: bool)
    requires target.Class? || target.Interface?
    ensures found == if target.Class? then Unqualified(target.name) in Ancestors(t, source)
                     else Realizes(t, Ancestors(t, source), Unqualified(target.name))
  {
    var targetName := Unqualified(target.name);
    var current := Unqualified(source);
    var visited: set<Name> := {};
    while current in t.classes && current !in visited
      invariant target.Class? ==>
                  (targetName in Ancestors(t, source) <==> targetName in Line(t, current, visited))
      invariant target.Interface? ==>
                  (Realizes(t, Ancestors(t, source), targetName) <==> Realizes(t, Line(t, current, visited), targetName))
      decreases |t.classes.Keys - visited|
    {
      OneMoreClass(t, current, visited, targetName);
      assert t.classes.Keys - (visited + {current}) < t.classes.Keys - visited;
      SmallerSet(t.classes.Keys - (visited + {current}), t.classes.Keys - visited);
      visited := visited + {current};
      if target.Class? && current == targetName {
        return true;
      }
      if target.Interface? && exists x | x in t.classes[current].interfaces :: Unqualified(x) == targetName {
        return true;
      }
      if t.classes[current].parent.None? {
        return false;
      }
      current := t.classes[current].parent.value;
    }
    return false;
  }

  lemma OneMoreClass(t: Table, n: Name, visited: set<Name>, target: Name)
    requires n in t.classes && n !in visited
    ensures var rest := if t.classes[n].parent.None? then [] else Line(t, t.classes[n].parent.value, visited + {n});
            && (target in Line(t, n, visited) <==> target == n || target in rest)
            && (Realizes(t, Line(t, n, visited), target) <==>
                (exists x | x in t.classes[n].interfaces :: Unqualified(x) == target) || Realizes(t, rest, target))
  {
    hide Unqualified;
    var rest := if t.classes[n].parent.None? then [] else Line(t, t.classes[n].parent.value, visited + {n});
    assert Line(t, n, visited) == [n] + rest;
    assert ([n] + rest)[0] == n && forall a | a in rest :: a in [n] + rest;
  }

  method IsErrorType(t: Table, x: Type) returns (r: bool)
    ensures r == IsError(t, x)
    decreases x
  {
    if x.Bottom? {
      return true;
    }
    if x.Union? {
      for i := 0 to |x.alternatives|
        invariant AllErrors(t, x.alternatives) <==> AllErrors(t, x.alternatives[i..])
      {
        assert x.alternatives[i..][1..] == x.alternatives[i + 1..];
        var each := IsErrorType(t, x.alternatives[i]);
        if !each {
          return false;
        }
      }
      return x.alternatives != [];
    }
    if (!x.Class? && !x.Interface?) || x.name == [] {
      return false;
    }
    if x.name in t.errors {
      return true;
    }
    if x.Interface? {
      return false;
    }
    var klass := Unqualified(x.name);
    var visited: set<Name> := {};
    while klass in t.classes && klass !in visited && t.classes[klass].parent.Some?
      invariant ParentIsError(t, ErrorLine(t, Unqualified(x.name), {})) <==> ParentIsError(t, ErrorLine(t, klass, visited))
      decreases |t.classes.Keys - visited|
    {
      OneMoreErrorClass(t, klass, visited);
      assert t.classes.Keys - (visited + {klass}) < t.classes.Keys - visited;
      SmallerSet(t.classes.Keys - (visited + {klass}), t.classes.Keys - visited);
      visited := visited + {klass};
      var parent := t.classes[klass].parent.value;
      if parent in t.types && parent in t.errors {
        return true;
      }
      if parent !in t.types {
        return false;
      }
      klass := Unqualified(parent);
    }
    LastClass(t, klass, visited);
    return false;
  }

  lemma OneMoreErrorClass(t: Table, n: Name, visited: set<Name>)
    requires n in t.classes && n !in visited && t.classes[n].parent.Some?
    ensures var p := t.classes[n].parent.value;
            var rest := if p in t.types then ErrorLine(t, Unqualified(p), visited + {n}) else [];
            ParentIsError(t, ErrorLine(t, n, visited)) <==> ErrorParent(t, t.classes[n]) || ParentIsError(t, rest)
  {
    hide Unqualified;
    var p := t.classes[n].parent.value;
    var rest := if p in t.types then ErrorLine(t, Unqualified(p), visited + {n}) else [];
    assert ErrorLine(t, n, visited) == [n] + rest;
    assert ([n] + rest)[0] == n && forall a | a in rest :: a in [n] + rest;
  }

  lemma LastClass(t: Table, n: Name, visited: set<Name>)
    requires n in t.classes && n !in visited ==> t.classes[n].parent.None?
    ensures !ParentIsError(t, ErrorLine(t, n, visited))
  {}

  // The classes that are errors

  predicate ListsErreur(c: ClassDecl) {
    "Erreur" in c.interfaces
  }

  /** A class that lists Erreur, or extends an error, is one. */
  predicate Joins(t: Table, errors: set<Name>, n: Name)
    requires n in t.classes
  {
    ListsErreur(t.classes[n]) || ErrorParent(t.(errors := errors), t.classes[n])
  }

  predicate Settled(t: Table, errors: set<Name>, n: Name) {
    n in t.classes && Joins(t, errors, n) ==> n in errors
  }

  predicate ClosedErrors(t: Table, errors: set<Name>) {
    forall n | n in t.classes :: Settled(t, errors, n)
  }

  ghost predicate Least(t: Table, errors: set<Name>) {
    forall s | t.errors <= s && ClosedErrors(t, s) :: errors <= s
  }

  /** Passes over the declarations until one adds nothing: the least set that is closed. */
  method CollectErrorTypes(t: Table, order: seq<Name>) returns (errors: set<Name>)
    requires forall n :: n in order <==> n in t.classes
    ensures t.errors <= errors && ClosedErrors(t, errors) && Least(t, errors)
  {
    hide Least, Joins;
    errors := t.errors;
    StartsLeast(t);
    var changed := true;
    while changed
      invariant t.errors <= errors && Least(t, errors)
      invariant !changed ==> forall j | 0 <= j < |order| :: Settled(t, errors, order[j])
      decreases |t.classes.Keys - errors|, changed
    {
      changed := false;
      ghost var before := errors;
      for i := 0 to |order|
        invariant t.errors <= errors && Least(t, errors)
        invariant if changed then |t.classes.Keys - errors| < |t.classes.Keys - before| else errors == before
        invariant !changed ==> forall j | 0 <= j < i :: Settled(t, errors, order[j])
      {
        var n := order[i];
        if n !in errors && Joins(t, errors, n) {
          StillLeast(t, errors, n);
          FewerLeft(t.classes.Keys, errors, n);
          errors := errors + {n};
          changed := true;
        }
      }
    }
  }

  lemma StartsLeast(t: Table)
    ensures Least(t, t.errors)
  {}

  lemma StillLeast(t: Table, errors: set<Name>, n: Name)
    requires n in t.classes && Joins(t, errors, n) && Least(t, errors)
    ensures Least(t, errors + {n})
  {
    forall s | t.errors <= s && ClosedErrors(t, s) ensures n in s {
      assert errors <= s && Settled(t, s, n);
    }
  }

  lemma FewerLeft(classes: set<Name>, errors: set<Name>, n: Name)
    requires n in classes && n !in errors
    ensures |classes - (errors + {n})| < |classes - errors|
  {
    assert classes - (errors + {n}) < classes - errors;
    SmallerSet(classes - (errors + {n}), classes - errors);
  }
}
