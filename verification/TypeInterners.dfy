/** The interner itself: the objects made so far and the table of their keys. */
module TypeInterners {
  import opened Utf8
  import opened TypeInterning

  function Joined(parts: seq<string>, separator: string): string {
    if parts == [] then [] else if |parts| == 1 then parts[0] else parts[0] + separator + Joined(parts[1..], separator)
  }

  function Displays(types: seq<SemanticType>, rs: seq<nat>): (d: seq<string>)
    requires Known(types, rs)
    ensures |d| == |rs|
  {
    seq(|rs|, k requires 0 <= k < |rs| => types[rs[k]].display)
  }

  /** How a type is shown. */
  function DisplayOf(kind: Kind, name: string, arguments: seq<string>, integer: nat): string {
    match kind
    case IntegerKind => Decimal(integer)
    case BottomKind => "Jamais"
    case UnionKind => Joined(arguments, " | ")
    case GenericKind => name + "[" + Joined(arguments, ",") + "]"
    case _ => name
  }

  ghost predicate Displayed(types: seq<SemanticType>) {
    forall r | 0 <= r < |types| ::
      var x := types[r];
      Known(types, x.arguments) && x.display == DisplayOf(x.kind, x.name, Displays(types, x.arguments), x.integer)
  }

  function KeysAt(types: seq<SemanticType>, rs: seq<nat>): (keys: seq<string>)
    requires Known(types, rs)
    ensures |keys| == |rs|
  {
    seq(|rs|, k requires 0 <= k < |rs| => types[rs[k]].key)
  }

  lemma EncodeOneMore(parts: seq<string>, part: string)
    ensures EncodeParts(parts + [part]) == EncodeParts(parts) + EncodePart(part)
  {
    if parts != [] {
      EncodeOneMore(parts[1..], part);
      assert (parts + [part])[1..] == parts[1..] + [part];
    }
  }

  lemma {:induction false} KeysAreKept(types: seq<SemanticType>, table: map<string, nat>, rs: seq<nat>)
    requires Interned(types, table) && Known(types, rs)
    ensures Founded(types) && KeysOf(ShapesOf(types, rs, |types|)) == KeysAt(types, rs)
    decreases |rs|
  {
    hide KeyOf;
    if rs != [] {
      KeysAreKept(types, table, rs[1..]);
      assert ShapesOf(types, rs, |types|)[1..] == ShapesOf(types, rs[1..], |types|);
    }
  }

  class TypeInterner {
    var types: seq<SemanticType>
    var table: map<string, nat>

    ghost predicate Valid()
      reads this
    {
      Interned(types, table) && UnionsAreFlat(types) && Displayed(types)
    }

    constructor ()
      ensures Valid() && types == []
    {
      types, table := [], map[];
    }

    /** The one object of a structure: found by its key, or made. */
    method Intern(kind: Kind, name: string, arguments: seq<nat>, integer: nat) returns (r: nat)
      requires Valid() && Known(types, arguments)
      requires kind == UnionKind ==> name == "" && integer == 0 && UnionArguments(types, arguments)
      modifies this
      ensures Valid() && old(types) <= types && r < |types|
      ensures types[r].kind == kind && types[r].name == name && types[r].arguments == arguments && types[r].integer == integer
    {
      hide KeyOf, EncodePart, UnionsAreFlat, Displayed, Interned;
      var key := [KindTag(kind)];
      key := key + EncodePart(name);
      key := key + EncodePart(Decimal(integer));
      ghost var head := key;
      ghost var keys := KeysAt(types, arguments);
      for i := 0 to |arguments|
        invariant types == old(types) && table == old(table)
        invariant key == head + EncodeParts(keys[..i])
      {
        assert keys[..i + 1] == keys[..i] + [types[arguments[i]].key];
        EncodeOneMore(keys[..i], types[arguments[i]].key);
        key := key + EncodePart(types[arguments[i]].key);
      }
      assert keys[..|arguments|] == keys;
      KeyIs(types, table, kind, name, arguments, integer, key);
      if key in table {
        FoundIs(types, table, kind, name, arguments, integer, key);
        return table[key];
      }
      var display := DisplayOf(kind, name, Displays(types, arguments), integer);
      var made := SemanticType(kind, name, arguments, integer, key, display);
      MadeIs(types, table, made);
      types := types + [made];
      table := table[key := |types| - 1];
      return |types| - 1;
    }

    method Builtin(name: string) returns (r: nat)
      requires Valid()
      modifies this
      ensures Valid() && old(types) <= types && r < |types| && types[r].kind == BuiltinKind && types[r].name == name
    {
      r := Intern(BuiltinKind, name, [], 0);
    }

    /** A generic type without arguments is refused. */
    method Generic(name: string, arguments: seq<nat>) returns (r: Option<nat>)
      requires Valid() && Known(types, arguments)
      modifies this
      ensures Valid() && old(types) <= types && (r.None? <==> arguments == [])
      ensures r.Some? ==> && r.value < |types| && types[r.value].kind == GenericKind && types[r.value].name == name
                          && types[r.value].arguments == arguments
    {
      if arguments == [] {
        return None;
      }
      var t := Intern(GenericKind, name, arguments, 0);
      return Some(t);
    }

    /** A union of alternatives: nested unions opened, sorted by display, repetitions beside
        each other removed, and a single alternative given back as it is. */
    method UnionType(alternatives: seq<nat>) returns (r: Option<nat>)
      requires Valid() && Known(types, alternatives)
      modifies this
      ensures Valid() && old(types) <= types && (r.None? <==> alternatives == [])
      ensures r.Some? ==> UnionOf(types, r.value, Flat(old(types), alternatives))
    {
      if alternatives == [] {
        return None;
      }
      hide Interned, UnionsAreFlat, Displayed, Sorted, Flat, Parts, NoNeighbours, NoUnions, UnionOf;
      ghost var all := Flat(types, alternatives);
      var flat: seq<nat> := [];
      for i := 0 to |alternatives|
        invariant types == old(types) && table == old(table)
        invariant flat + Flat(types, alternatives[i..]) == all
      {
        FlatStep(types, flat, alternatives, i);
        flat := flat + Parts(types, alternatives[i]);
      }
      NothingFlat(types, flat);
      FlatIsPlain(types, alternatives);
      var sorted := SortByDisplay(types, flat);
      SameMembers(sorted, flat);
      hide Rearranged;
      var normalized := Unique(types, sorted);
      PlainToo(types, flat, normalized);
      if |normalized| == 1 {
        SingleIs(types, normalized[0], flat, normalized);
        return Some(normalized[0]);
      }
      var t := Intern(UnionKind, "", normalized, 0);
      UnionIs(old(types), types, t, normalized, flat);
      return Some(t);
    }
  }

  lemma FlatStep(types: seq<SemanticType>, flat: seq<nat>, alternatives: seq<nat>, i: nat)
    requires Known(types, alternatives) && i < |alternatives|
    ensures flat + Flat(types, alternatives[i..]) == flat + Parts(types, alternatives[i]) + Flat(types, alternatives[i + 1..])
  {
    assert alternatives[i..][1..] == alternatives[i + 1..];
  }

  lemma NothingFlat(types: seq<SemanticType>, flat: seq<nat>)
    ensures flat + Flat(types, []) == flat
  {}

  lemma PlainToo(types: seq<SemanticType>, flat: seq<nat>, normalized: seq<nat>)
    requires Known(types, flat) && NoUnions(types, flat) && forall x | x in normalized :: x in flat
    ensures Known(types, normalized) && NoUnions(types, normalized)
  {
    forall k | 0 <= k < |normalized| ensures normalized[k] < |types| && types[normalized[k]].kind != UnionKind {
      assert normalized[k] in flat;
    }
  }

  lemma UnionIs(types: seq<SemanticType>, all: seq<SemanticType>, r: nat, normalized: seq<nat>, flat: seq<nat>)
    requires types <= all && r < |all| && all[r].kind == UnionKind && all[r].arguments == normalized
    requires Known(types, normalized) && Sorted(types, normalized) && NoNeighbours(normalized)
    requires forall x :: x in normalized <==> x in flat
    ensures UnionOf(all, r, flat)
  {
    KnownLater(types, all, normalized);
  }

  lemma KeyIs(types: seq<SemanticType>, table: map<string, nat>, kind: Kind, name: string, arguments: seq<nat>,
            integer: nat, key: string)
    requires Interned(types, table) && Known(types, arguments)
    requires key == [KindTag(kind)] + EncodePart(name) + EncodePart(Decimal(integer))
                    + EncodeParts(KeysAt(types, arguments))
    ensures Founded(types) && key == KeyOf(Shape(kind, name, ShapesOf(types, arguments, |types|), integer))
  {
    hide EncodePart, EncodeParts, Decimal;
    KeysAreKept(types, table, arguments);
  }

  /** An object of the key has the structure asked for. */
  lemma FoundIs(types: seq<SemanticType>, table: map<string, nat>, kind: Kind, name: string, arguments: seq<nat>,
            integer: nat, key: string)
    requires Interned(types, table) && Known(types, arguments) && Founded(types) && key in table
    requires key == KeyOf(Shape(kind, name, ShapesOf(types, arguments, |types|), integer))
    ensures table[key] < |types|
    ensures var x := types[table[key]]; x.kind == kind && x.name == name && x.arguments == arguments && x.integer == integer
  {
    hide KeyOf;
    var r := table[key];
    KeyIsExact(ShapeOf(types, r), Shape(kind, name, ShapesOf(types, arguments, |types|), integer));
    ShapesAnyBound(types, types[r].arguments, r, |types|);
    ShapesDecide(types, table, types[r].arguments, arguments);
  }

  /** A new object of a new key. */
  lemma MadeIs(types: seq<SemanticType>, table: map<string, nat>, made: SemanticType)
    requires Interned(types, table) && UnionsAreFlat(types) && Displayed(types) && Known(types, made.arguments)
    requires Founded(types) && made.key !in table
    requires made.key == KeyOf(Shape(made.kind, made.name, ShapesOf(types, made.arguments, |types|), made.integer))
    requires made.display == DisplayOf(made.kind, made.name, Displays(types, made.arguments), made.integer)
    requires made.kind == UnionKind ==> made.name == "" && made.integer == 0 && UnionArguments(types, made.arguments)
    ensures Interned(types + [made], table[made.key := |types|])
    ensures UnionsAreFlat(types + [made]) && Displayed(types + [made])
  {
    MadeIsInterned(types, table, made);
    MadeIsFlat(types, made);
    MadeIsDisplayed(types, made);
  }

  lemma MadeIsInterned(types: seq<SemanticType>, table: map<string, nat>, made: SemanticType)
    requires Interned(types, table) && Known(types, made.arguments) && Founded(types) && made.key !in table
    requires made.key == KeyOf(Shape(made.kind, made.name, ShapesOf(types, made.arguments, |types|), made.integer))
    ensures Interned(types + [made], table[made.key := |types|])
  {
    hide KeyOf, ShapeOf, ShapesOf, Leads, Founded, Known;
    MadeIsFounded(types, made);
    MadeLeads(types, table, made);
    MadeShape(types, made);
    forall r | 0 <= r < |types + [made]| ensures (types + [made])[r].key == KeyOf(ShapeOf(types + [made], r)) {
      if r < |types| {
        ShapeIsKept(types, [made], r);
      }
    }
  }

  lemma MadeLeads(types: seq<SemanticType>, table: map<string, nat>, made: SemanticType)
    requires Leads(types, table) && made.key !in table
    ensures Leads(types + [made], table[made.key := |types|])
  {
    var all, after := types + [made], table[made.key := |types|];
    forall r | 0 <= r < |all| ensures all[r].key in after && after[all[r].key] == r {
      assert r < |types| ==> all[r] == types[r];
    }
    forall key | key in after ensures after[key] < |all| && all[after[key]].key == key {
      assert key != made.key ==> key in table && all[table[key]] == types[table[key]];
    }
  }

  lemma MadeIsFounded(types: seq<SemanticType>, made: SemanticType)
    requires Founded(types) && Known(types, made.arguments)
    ensures Founded(types + [made])
  {}

  lemma MadeShape(types: seq<SemanticType>, made: SemanticType)
    requires Founded(types) && Founded(types + [made]) && Known(types, made.arguments)
    ensures ShapeOf(types + [made], |types|) ==
            Shape(made.kind, made.name, ShapesOf(types, made.arguments, |types|), made.integer)
  {
    ShapesAreKept(types, [made], made.arguments, |types|);
  }

  lemma KnownLater(types: seq<SemanticType>, all: seq<SemanticType>, rs: seq<nat>)
    requires types <= all && Known(types, rs)
    ensures Known(all, rs) && forall k | 0 <= k < |rs| :: all[rs[k]] == types[rs[k]]
  {}

  lemma MadeIsFlat(types: seq<SemanticType>, made: SemanticType)
    requires UnionsAreFlat(types)
    requires made.kind == UnionKind ==> made.name == "" && made.integer == 0 && UnionArguments(types, made.arguments)
    ensures UnionsAreFlat(types + [made])
  {
    var all := types + [made];
    forall r | 0 <= r < |all| && all[r].kind == UnionKind
      ensures all[r].name == "" && all[r].integer == 0 && UnionArguments(all, all[r].arguments)
    {
      assert UnionArguments(types, all[r].arguments);
      KnownLater(types, all, all[r].arguments);
    }
  }

  lemma MadeIsDisplayed(types: seq<SemanticType>, made: SemanticType)
    requires Displayed(types) && Known(types, made.arguments)
    requires made.display == DisplayOf(made.kind, made.name, Displays(types, made.arguments), made.integer)
    ensures Displayed(types + [made])
  {
    hide DisplayOf;
    var all := types + [made];
    forall r | 0 <= r < |all|
      ensures Known(all, all[r].arguments)
      ensures all[r].display == DisplayOf(all[r].kind, all[r].name, Displays(all, all[r].arguments), all[r].integer)
    {
      KnownLater(types, all, all[r].arguments);
      assert Displays(all, all[r].arguments) == Displays(types, all[r].arguments);
    }
  }

  /** Opening unions leaves known types that are no unions. */
  lemma {:induction false} FlatIsPlain(types: seq<SemanticType>, rs: seq<nat>)
    requires Known(types, rs) && UnionsAreFlat(types)
    ensures Known(types, Flat(types, rs)) && NoUnions(types, Flat(types, rs)) && (rs != [] ==> Flat(types, rs) != [])
    decreases |rs|
  {
    if rs != [] {
      FlatIsPlain(types, rs[1..]);
    }
  }

  lemma SingleIs(types: seq<SemanticType>, r: nat, flat: seq<nat>, normalized: seq<nat>)
    requires r < |types| && types[r].kind != UnionKind && normalized == [r] && forall x :: x in normalized <==> x in flat
    ensures UnionOf(types, r, flat)
  {}

  /** The same members, as often. */
  predicate Rearranged(s: seq<nat>, rs: seq<nat>) {
    multiset(s) == multiset(rs)
  }

  lemma SameMembers(s: seq<nat>, rs: seq<nat>)
    requires Rearranged(s, rs)
    ensures forall x :: x in s <==> x in rs
    ensures s == [] <==> rs == []
  {
    forall x ensures x in s <==> x in rs {
      assert x in multiset(s) <==> x in multiset(rs);
    }
    assert |multiset(s)| == |multiset(rs)|;
  }

  /** Insertion by display. */
  method SortByDisplay(types: seq<SemanticType>, rs: seq<nat>) returns (s: seq<nat>)
    requires Known(types, rs)
    ensures Known(types, s) && Sorted(types, s) && Rearranged(s, rs)
  {
    hide Before;
    s := [];
    for i := 0 to |rs|
      invariant Known(types, s) && Sorted(types, s) && multiset(s) == multiset(rs[..i])
    {
      var j: nat := |s|;
      while j > 0 && Before(types[rs[i]].display, types[s[j - 1]].display)
        invariant j <= |s| && forall k | j <= k < |s| :: Before(types[rs[i]].display, types[s[k]].display)
      {
        j := j - 1;
      }
      InsertedIsSorted(types, s, rs[i], j);
      assert rs[..i + 1] == rs[..i] + [rs[i]];
      assert s == s[..j] + s[j..];
      s := s[..j] + [rs[i]] + s[j..];
    }
    assert rs[..|rs|] == rs;
  }

  lemma InsertedIsSorted(types: seq<SemanticType>, s: seq<nat>, r: nat, j: nat)
    requires Known(types, s) && Sorted(types, s) && r < |types| && j <= |s|
    requires forall k | j <= k < |s| :: Before(types[r].display, types[s[k]].display)
    requires j > 0 ==> !Before(types[r].display, types[s[j - 1]].display)
    ensures Known(types, s[..j] + [r] + s[j..]) && Sorted(types, s[..j] + [r] + s[j..])
  {
    var t := s[..j] + [r] + s[j..];
    forall k | 0 <= k < j ensures !Before(types[r].display, types[s[k]].display) {
      if k < j - 1 {
        LessThrough(types[s[k]].display, types[s[j - 1]].display, types[r].display);
      }
    }
    forall k | j <= k < |s| ensures !Before(types[s[k]].display, types[r].display) {
      LessIsStrict(types[r].display, types[s[k]].display);
    }
    forall a, b | 0 <= a < b < |t| ensures !Before(types[t[b]].display, types[t[a]].display) {
      var x, y := if a < j then a else a - 1, if b < j then b else b - 1;
      assert a != j ==> t[a] == s[x];
      assert b != j ==> t[b] == s[y];
    }
  }

  /** Repetitions beside each other are removed. */
  method Unique(types: seq<SemanticType>, s: seq<nat>) returns (u: seq<nat>)
    requires Known(types, s) && Sorted(types, s)
    ensures Known(types, u) && Sorted(types, u) && NoNeighbours(u) && (s != [] ==> u != []) && forall x :: x in u <==> x in s
  {
    hide Before;
    u := [];
    for i := 0 to |s|
      invariant Known(types, u) && Sorted(types, u) && NoNeighbours(u) && (i > 0 ==> u != [] && u[|u| - 1] == s[i - 1])
      invariant forall x :: x in u <==> x in s[..i]
      invariant forall k | 0 <= k < |u| :: exists j | 0 <= j < i :: s[j] == u[k]
    {
      assert s[..i + 1] == s[..i] + [s[i]];
      if u == [] || u[|u| - 1] != s[i] {
        forall k | 0 <= k < |u| ensures !Before(types[s[i]].display, types[u[k]].display) {
          var j :| 0 <= j < i && s[j] == u[k];
        }
        u := u + [s[i]];
      }
    }
    assert s[..|s|] == s;
  }
}
