/** The type interner: one object for each structure, found by a key that spells the
    structure out, so that types are compared by identity.
 */
module TypeInterning {
  import opened Utf8

  datatype Kind = BuiltinKind | ClassKind | InterfaceKind | GenericKind | UnionKind | ParameterKind | IntegerKind | BottomKind

  /** A type object; `arguments` refer to others by their place in the interner. */
  datatype SemanticType = SemanticType(
    kind: Kind, name: string, arguments: seq<nat>, integer: nat, key: string, display: string)

  /** The structure of a type. */
  datatype Shape = Shape(kind: Kind, name: string, arguments: seq<Shape>, integer: nat)

  // Keys

  function KindTag(kind: Kind): char {
    match kind
    case BuiltinKind => 'b'
    case ClassKind => 'c'
    case InterfaceKind => 'i'
    case GenericKind => 'g'
    case UnionKind => 'u'
    case ParameterKind => 'p'
    case IntegerKind => 'n'
    case BottomKind => 'x'
  }

  function Decimal(n: nat): (s: string)
    ensures s != [] && forall k | 0 <= k < |s| :: '0' <= s[k] <= '9'
  {
    if n < 10 then ['0' + n as char] else Decimal(n / 10) + ['0' + (n % 10) as char]
  }

  function Value(s: string): int
  {
    if s == [] then 0 else Value(s[..|s| - 1]) * 10 + (s[|s| - 1] as int - '0' as int)
  }

  lemma {:induction false} DecimalIsExact(n: nat)
    ensures Value(Decimal(n)) == n
  {
    if n < 10 {
      assert Decimal(n)[..0] == [];
    } else {
      DecimalIsExact(n / 10);
      var s := Decimal(n / 10);
      assert (s + ['0' + (n % 10) as char])[..|s|] == s;
    }
  }

  /** A part is preceded by its length. */
  function EncodePart(value: string): string {
    Decimal(|value|) + [':'] + value
  }

  function EncodeParts(parts: seq<string>): string {
    if parts == [] then [] else EncodePart(parts[0]) + EncodeParts(parts[1..])
  }

  /** Digits up to a colon are read in one way. */
  lemma {:induction false} DigitsEnd(d: string, e: string, x: string, y: string)
    requires forall k | 0 <= k < |d| :: d[k] != ':'
    requires forall k | 0 <= k < |e| :: e[k] != ':'
    requires d + [':'] + x == e + [':'] + y
    ensures d == e && x == y
    decreases |d|
  {
    var s := d + [':'] + x;
    if d == [] {
      assert s[0] == ':';
      assert e == [];
    } else {
      assert s[0] == d[0];
      assert e != [];
      assert s[1..] == d[1..] + [':'] + x == e[1..] + [':'] + y;
      DigitsEnd(d[1..], e[1..], x, y);
      assert d == [d[0]] + d[1..] && e == [e[0]] + e[1..];
    }
  }

  /** One part, whatever follows, is read in one way. */
  lemma PartIsRead(a: string, b: string, x: string, y: string)
    requires EncodePart(a) + x == EncodePart(b) + y
    ensures a == b && x == y
  {
    assert Decimal(|a|) + [':'] + (a + x) == EncodePart(a) + x;
    assert Decimal(|b|) + [':'] + (b + y) == EncodePart(b) + y;
    DigitsEnd(Decimal(|a|), Decimal(|b|), a + x, b + y);
    DecimalIsExact(|a|);
    DecimalIsExact(|b|);
    assert (a + x)[..|a|] == a && (b + y)[..|b|] == b;
    assert (a + x)[|a|..] == x && (b + y)[|b|..] == y;
  }

  lemma {:induction false} PartsAreRead(s: seq<string>, t: seq<string>)
    requires EncodeParts(s) == EncodeParts(t)
    ensures s == t
    decreases |s|
  {
    if s != [] && t != [] {
      PartIsRead(s[0], t[0], EncodeParts(s[1..]), EncodeParts(t[1..]));
      PartsAreRead(s[1..], t[1..]);
      assert s == [s[0]] + s[1..] && t == [t[0]] + t[1..];
    }
  }

  function KeyOf(shape: Shape): string
    decreases shape
  {
    [KindTag(shape.kind)] + EncodePart(shape.name) + EncodePart(Decimal(shape.integer)) + EncodeParts(KeysOf(shape.arguments))
  }

  function KeysOf(shapes: seq<Shape>): (keys: seq<string>)
    ensures |keys| == |shapes|
    decreases shapes
  {
    if shapes == [] then [] else [KeyOf(shapes[0])] + KeysOf(shapes[1..])
  }

  lemma KeyParts(a: Shape, b: Shape)
    requires KeyOf(a) == KeyOf(b)
    ensures a.kind == b.kind && a.name == b.name && a.integer == b.integer && KeysOf(a.arguments) == KeysOf(b.arguments)
  {
    hide EncodePart, EncodeParts, Decimal, KeysOf;
    var x := EncodePart(Decimal(a.integer)) + EncodeParts(KeysOf(a.arguments));
    var y := EncodePart(Decimal(b.integer)) + EncodeParts(KeysOf(b.arguments));
    assert KeyOf(a) == [KindTag(a.kind)] + (EncodePart(a.name) + x);
    assert KeyOf(b) == [KindTag(b.kind)] + (EncodePart(b.name) + y);
    assert KeyOf(a)[0] == KindTag(a.kind) && KeyOf(b)[0] == KindTag(b.kind);
    assert KeyOf(a)[1..] == EncodePart(a.name) + x && KeyOf(b)[1..] == EncodePart(b.name) + y;
    PartIsRead(a.name, b.name, x, y);
    PartIsRead(Decimal(a.integer), Decimal(b.integer), EncodeParts(KeysOf(a.arguments)), EncodeParts(KeysOf(b.arguments)));
    PartsAreRead(KeysOf(a.arguments), KeysOf(b.arguments));
    DecimalIsExact(a.integer);
    DecimalIsExact(b.integer);
  }

  /** A key belongs to one structure. */
  lemma {:induction false} KeyIsExact(a: Shape, b: Shape)
    requires KeyOf(a) == KeyOf(b)
    ensures a == b
    decreases a
  {
    hide KeyOf;
    KeyParts(a, b);
    KeysAreExact(a.arguments, b.arguments);
  }

  lemma {:induction false} KeysAreExact(s: seq<Shape>, t: seq<Shape>)
    requires KeysOf(s) == KeysOf(t)
    ensures s == t
    decreases s
  {
    hide KeyOf;
    if s != [] {
      assert KeysOf(s)[0] == KeyOf(s[0]) && KeysOf(t)[0] == KeyOf(t[0]);
      assert KeysOf(s)[1..] == KeysOf(s[1..]) && KeysOf(t)[1..] == KeysOf(t[1..]);
      KeyIsExact(s[0], t[0]);
      KeysAreExact(s[1..], t[1..]);
      assert s == [s[0]] + s[1..] && t == [t[0]] + t[1..];
    }
  }

  // The objects of an interner

  /** Arguments were interned before. */
  ghost predicate Founded(types: seq<SemanticType>) {
    forall r | 0 <= r < |types| :: forall k | 0 <= k < |types[r].arguments| :: types[r].arguments[k] < r
  }

  ghost function ShapeOf(types: seq<SemanticType>, r: nat): Shape
    requires Founded(types) && r < |types|
    decreases r, 1, 0
  {
    Shape(types[r].kind, types[r].name, ShapesOf(types, types[r].arguments, r), types[r].integer)
  }

  ghost function ShapesOf(types: seq<SemanticType>, rs: seq<nat>, bound: nat): (shapes: seq<Shape>)
    requires Founded(types) && bound <= |types| && forall k | 0 <= k < |rs| :: rs[k] < bound
    ensures |shapes| == |rs|
    decreases bound, 0, |rs|
  {
    if rs == [] then [] else [ShapeOf(types, rs[0])] + ShapesOf(types, rs[1..], bound)
  }

  lemma {:induction false} ShapeIsKept(types: seq<SemanticType>, more: seq<SemanticType>, r: nat)
    requires Founded(types) && Founded(types + more) && r < |types|
    ensures ShapeOf(types + more, r) == ShapeOf(types, r)
    decreases r, 1, 0
  {
    ShapesAreKept(types, more, types[r].arguments, r);
  }

  lemma {:induction false} ShapesAreKept(types: seq<SemanticType>, more: seq<SemanticType>, rs: seq<nat>, bound: nat)
    requires Founded(types) && Founded(types + more) && bound <= |types| && forall k | 0 <= k < |rs| :: rs[k] < bound
    ensures ShapesOf(types + more, rs, bound) == ShapesOf(types, rs, bound)
    decreases bound, 0, |rs|
  {
    if rs != [] {
      ShapeIsKept(types, more, rs[0]);
      ShapesAreKept(types, more, rs[1..], bound);
    }
  }

  /** How references read does not depend on the bound. */
  lemma {:induction false} ShapesAnyBound(types: seq<SemanticType>, rs: seq<nat>, a: nat, b: nat)
    requires Founded(types) && a <= |types| && b <= |types|
    requires forall k | 0 <= k < |rs| :: rs[k] < a && rs[k] < b
    ensures ShapesOf(types, rs, a) == ShapesOf(types, rs, b)
    decreases |rs|
  {
    if rs != [] {
      ShapesAnyBound(types, rs[1..], a, b);
    }
  }

  /** Each object has the key of its structure, and the table leads from each key to the
      object and nowhere else. */
  ghost predicate Interned(types: seq<SemanticType>, table: map<string, nat>) {
    && Founded(types)
    && (forall r | 0 <= r < |types| :: types[r].key == KeyOf(ShapeOf(types, r)))
    && Leads(types, table)
  }

  ghost predicate Leads(types: seq<SemanticType>, table: map<string, nat>) {
    && (forall r | 0 <= r < |types| :: types[r].key in table && table[types[r].key] == r)
    && (forall key | key in table :: table[key] < |types| && types[table[key]].key == key)
  }

  /** Identity is structural equality. */
  lemma SameTypeIsStructural(types: seq<SemanticType>, table: map<string, nat>, r: nat, s: nat)
    requires Interned(types, table) && r < |types| && s < |types|
    ensures r == s <==> ShapeOf(types, r) == ShapeOf(types, s)
  {
    hide KeyOf;
    if ShapeOf(types, r) == ShapeOf(types, s) {
      assert table[types[r].key] == r && table[types[s].key] == s;
    }
  }

  // Unions

  predicate Before(a: string, b: string)
    decreases |a|
  {
    b != [] && (a == [] || a[0] < b[0] || (a[0] == b[0] && Before(a[1..], b[1..])))
  }

  lemma {:induction false} LessIsStrict(a: string, b: string)
    ensures !(Before(a, b) && Before(b, a)) && (Before(a, b) || Before(b, a) || a == b) && !Before(a, a)
    decreases |a|
  {
    if a != [] {
      if b != [] && a[0] == b[0] {
        LessIsStrict(a[1..], b[1..]);
        assert a == [a[0]] + a[1..] && b == [b[0]] + b[1..];
      }
      LessIsStrict(a[1..], a[1..]);
    }
  }

  lemma {:induction false} LessThrough(a: string, b: string, c: string)
    requires !Before(b, a) && !Before(c, b)
    ensures !Before(c, a)
    decreases |a|
  {
    if a != [] && b != [] && c != [] && a[0] == b[0] == c[0] {
      LessThrough(a[1..], b[1..], c[1..]);
    }
  }

  /** In order of display, equal ones anyhow. */
  ghost predicate Sorted(types: seq<SemanticType>, rs: seq<nat>)
    requires Known(types, rs)
  {
    forall i, j | 0 <= i < j < |rs| :: !Before(types[rs[j]].display, types[rs[i]].display)
  }

  predicate Known(types: seq<SemanticType>, rs: seq<nat>) {
    forall k | 0 <= k < |rs| :: rs[k] < |types|
  }

  predicate NoNeighbours(rs: seq<nat>) {
    forall k | 0 <= k < |rs| - 1 :: rs[k] != rs[k + 1]
  }

  predicate NoUnions(types: seq<SemanticType>, rs: seq<nat>)
    requires Known(types, rs)
  {
    forall k | 0 <= k < |rs| :: types[rs[k]].kind != UnionKind
  }

  /** What the arguments of a union are. */
  ghost predicate UnionArguments(types: seq<SemanticType>, rs: seq<nat>) {
    Known(types, rs) && |rs| >= 2 && NoUnions(types, rs) && Sorted(types, rs) && NoNeighbours(rs)
  }

  ghost predicate UnionsAreFlat(types: seq<SemanticType>) {
    forall r | 0 <= r < |types| && types[r].kind == UnionKind ::
      types[r].name == "" && types[r].integer == 0 && UnionArguments(types, types[r].arguments)
  }

  /** The alternatives of a union, or the type alone. */
  function Parts(types: seq<SemanticType>, r: nat): seq<nat>
    requires r < |types|
  {
    if types[r].kind == UnionKind then types[r].arguments else [r]
  }

  function Flat(types: seq<SemanticType>, rs: seq<nat>): seq<nat>
    requires Known(types, rs)
    decreases |rs|
  {
    if rs == [] then [] else Parts(types, rs[0]) + Flat(types, rs[1..])
  }

  /** A type stands for a union of alternatives: it has exactly them, in order. */
  ghost predicate UnionOf(types: seq<SemanticType>, r: nat, alternatives: seq<nat>) {
    r < |types| && Known(types, Parts(types, r)) && Sorted(types, Parts(types, r)) && NoNeighbours(Parts(types, r))
    && forall x :: x in Parts(types, r) <==> x in alternatives
  }

  predicate DistinctDisplays(types: seq<SemanticType>, rs: seq<nat>)
    requires Known(types, rs)
  {
    forall i, j | 0 <= i < |rs| && 0 <= j < |rs| && rs[i] != rs[j] :: types[rs[i]].display != types[rs[j]].display
  }

  ghost predicate Strict(types: seq<SemanticType>, rs: seq<nat>)
    requires Known(types, rs)
  {
    forall i, j | 0 <= i < j < |rs| :: Before(types[rs[i]].display, types[rs[j]].display)
  }

  /** With distinct displays the order is strict, and no type occurs twice. */
  lemma SortedIsStrict(types: seq<SemanticType>, rs: seq<nat>)
    requires Known(types, rs) && Sorted(types, rs) && NoNeighbours(rs) && DistinctDisplays(types, rs)
    ensures Strict(types, rs)
  {
    forall i, j | 0 <= i < j < |rs| ensures Before(types[rs[i]].display, types[rs[j]].display) {
      assert rs[i] != rs[i + 1];
      LessIsStrict(types[rs[i]].display, types[rs[i + 1]].display);
      LessIsStrict(types[rs[j]].display, types[rs[j]].display);
      LessIsStrict(types[rs[i]].display, types[rs[j]].display);
    }
  }

  /** Two strictly ordered sequences of the same types are one. */
  lemma {:induction false} StrictIsUnique(types: seq<SemanticType>, rs: seq<nat>, ss: seq<nat>)
    requires Known(types, rs) && Known(types, ss) && Strict(types, rs) && Strict(types, ss)
    requires forall x :: x in rs <==> x in ss
    ensures rs == ss
    decreases |rs|
  {
    if rs == [] {
      HeadIn(ss);
    } else {
      assert rs[0] in ss;
      assert ss[0] in rs;
      FirstIsFirst(types, rs, ss);
      RestIsSame(types, rs, ss);
      StrictIsUnique(types, rs[1..], ss[1..]);
      assert rs == [rs[0]] + rs[1..] && ss == [ss[0]] + ss[1..];
    }
  }

  lemma HeadIn(s: seq<nat>)
    ensures s != [] ==> s[0] in s
  {}

  lemma FirstIsFirst(types: seq<SemanticType>, rs: seq<nat>, ss: seq<nat>)
    requires Known(types, rs) && Known(types, ss) && Strict(types, rs) && Strict(types, ss)
    requires rs != [] && ss != [] && rs[0] in ss && ss[0] in rs
    ensures rs[0] == ss[0]
  {
    var i :| 0 <= i < |ss| && ss[i] == rs[0];
    var j :| 0 <= j < |rs| && rs[j] == ss[0];
    LessIsStrict(types[rs[0]].display, types[ss[0]].display);
  }

  lemma RestIsSame(types: seq<SemanticType>, rs: seq<nat>, ss: seq<nat>)
    requires Known(types, rs) && Known(types, ss) && Strict(types, rs) && Strict(types, ss)
    requires rs != [] && ss != [] && rs[0] == ss[0] && forall x :: x in rs <==> x in ss
    ensures forall x :: x in rs[1..] <==> x in ss[1..]
  {
    FirstOnce(types, rs);
    FirstOnce(types, ss);
    assert rs == [rs[0]] + rs[1..] && ss == [ss[0]] + ss[1..];
    forall x ensures x in rs[1..] <==> x in ss[1..] {
      assert x in rs <==> x == rs[0] || x in rs[1..];
      assert x in ss <==> x == ss[0] || x in ss[1..];
    }
  }

  lemma FirstOnce(types: seq<SemanticType>, rs: seq<nat>)
    requires Known(types, rs) && Strict(types, rs) && rs != []
    ensures rs[0] !in rs[1..]
  {
    forall k | 1 <= k < |rs| ensures rs[k] != rs[0] {
      LessIsStrict(types[rs[0]].display, types[rs[k]].display);
    }
  }

  /** Unions of the same alternatives are the same type, in whatever order, however often
      and however nested the alternatives were given, when their displays differ. */
  lemma UnionsAreCanonical(types: seq<SemanticType>, table: map<string, nat>, r: nat, s: nat, a: seq<nat>, b: seq<nat>)
    requires Interned(types, table) && UnionsAreFlat(types) && UnionOf(types, r, a) && UnionOf(types, s, b)
    requires Known(types, a) && DistinctDisplays(types, a) && forall x :: x in a <==> x in b
    ensures r == s
  {
    hide Interned;
    var p, q := Parts(types, r), Parts(types, s);
    DisplaysOf(types, p, a);
    DisplaysOf(types, q, a);
    SortedIsStrict(types, p);
    SortedIsStrict(types, q);
    StrictIsUnique(types, p, q);
    if types[r].kind == UnionKind && types[s].kind == UnionKind {
      SameArguments(types, table, r, s);
    }
  }

  lemma DisplaysOf(types: seq<SemanticType>, p: seq<nat>, a: seq<nat>)
    requires Known(types, p) && Known(types, a) && DistinctDisplays(types, a) && forall x | x in p :: x in a
    ensures DistinctDisplays(types, p)
  {
    forall i, j | 0 <= i < |p| && 0 <= j < |p| && p[i] != p[j] ensures types[p[i]].display != types[p[j]].display {
      assert p[i] in a && p[j] in a;
    }
  }

  lemma SameArguments(types: seq<SemanticType>, table: map<string, nat>, r: nat, s: nat)
    requires Interned(types, table) && r < |types| && s < |types|
    requires types[r].kind == types[s].kind && types[r].name == types[s].name && types[r].integer == types[s].integer
    requires types[r].arguments == types[s].arguments
    ensures r == s
  {
    ShapesAnyBound(types, types[r].arguments, r, s);
    SameTypeIsStructural(types, table, r, s);
  }

  /** References with the same structures are the same. */
  lemma {:induction false} ShapesDecide(types: seq<SemanticType>, table: map<string, nat>, rs: seq<nat>, ss: seq<nat>)
    requires Interned(types, table) && Known(types, rs) && Known(types, ss)
    requires ShapesOf(types, rs, |types|) == ShapesOf(types, ss, |types|)
    ensures rs == ss
    decreases |rs|
  {
    hide Interned;
    InternedIsFounded(types, table);
    if rs != [] {
      assert ShapesOf(types, rs, |types|)[0] == ShapeOf(types, rs[0]);
      assert ShapesOf(types, ss, |types|)[0] == ShapeOf(types, ss[0]);
      assert ShapesOf(types, rs, |types|)[1..] == ShapesOf(types, rs[1..], |types|);
      assert ShapesOf(types, ss, |types|)[1..] == ShapesOf(types, ss[1..], |types|);
      SameTypeIsStructural(types, table, rs[0], ss[0]);
      ShapesDecide(types, table, rs[1..], ss[1..]);
      assert rs == [rs[0]] + rs[1..] && ss == [ss[0]] + ss[1..];
    }
  }

  lemma InternedIsFounded(types: seq<SemanticType>, table: map<string, nat>)
    requires Interned(types, table)
    ensures Founded(types)
  {}
}
