/** Equality and hashing of values: an equivalence on values equal to themselves, lawful
    for the hash tables on every value of a heap.
 */
module Values {
  import opened Utf8
  import opened HashIndexes
  import opened HashTables

  /** A double: not a number, one of the two zeros, or another number. */
  datatype Double = NotANumber | PositiveZero | NegativeZero | Number(bits: nat)

  /** Comparison as IEEE 754 has it. */
  predicate DoubleEquals(a: Double, b: Double) {
    a != NotANumber && b != NotANumber && (a == b || (IsZero(a) && IsZero(b)))
  }

  predicate IsZero(d: Double) {
    d == PositiveZero || d == NegativeZero
  }

  datatype Kind = ListeKind | DictionnaireKind | EnsembleKind | ObjetKind | FonctionKind | ClasseKind | InterfaceKind

  /** An address identifies a shared object; `ListeFixe` may hold no object at all. The
      elements of a fixed list and the characters of a text are what is at the address. */
  datatype Value =
    | Rien
    | Entier(n: int)
    | Decimal(d: Double)
    | Logique(b: bool)
    | Symbole(c: bv32)
    | Texte(at: nat, text: Bytes)
    | ListeFixe(at: nat, elements: seq<Value>)
    | ListeFixeNulle
    | Resultat(success: bool, payload: Value)
    | Handle(kind: Kind, at: nat)

  /** Fixed lists and results are compared by content, handles by identity; a shared
      address makes texts and fixed lists equal at once. */
  predicate Equals(a: Value, b: Value)
    decreases a
  {
    match a
    case Rien => b.Rien?
    case Entier(n) => b.Entier? && n == b.n
    case Decimal(d) => b.Decimal? && DoubleEquals(d, b.d)
    case Logique(x) => b.Logique? && x == b.b
    case Symbole(c) => b.Symbole? && c == b.c
    case Texte(at, text) => b.Texte? && (at == b.at || text == b.text)
    case ListeFixe(at, elements) => b.ListeFixe? && (at == b.at || AllEqual(elements, b.elements))
    case ListeFixeNulle => b.ListeFixeNulle?
    case Resultat(success, payload) => b.Resultat? && success == b.success && Equals(payload, b.payload)
    case Handle(kind, at) => b.Handle? && kind == b.kind && at == b.at
  }

  predicate AllEqual(s: seq<Value>, t: seq<Value>)
    decreases s
  {
    |s| == |t| && (s != [] ==> Equals(s[0], t[0]) && AllEqual(s[1..], t[1..]))
  }

  // Hashing

  type Hash = bv64

  function HashMix(seed: Hash, value: Hash): Hash {
    seed ^ (value + 0x9e3779b97f4a7c15 + (seed << 6) + (seed >> 2))
  }

  /** The standard library's hash functions, which equal arguments determine. */
  datatype Hashes = Hashes(entier: int -> Hash, double: Double -> Hash, text: Bytes -> Hash, address: nat -> Hash)

  function Tag(v: Value): Hash {
    match v
    case Entier(_) => 0
    case Decimal(_) => 1
    case Logique(_) => 2
    case Symbole(_) => 3
    case Texte(_, _) => 4
    case ListeFixe(_, _) => 6
    case ListeFixeNulle => 6
    case Resultat(_, _) => 13
    case Rien => 14
    case Handle(kind, _) =>
      match kind
      case ListeKind => 5
      case DictionnaireKind => 7
      case EnsembleKind => 8
      case ObjetKind => 9
      case FonctionKind => 10
      case ClasseKind => 11
      case InterfaceKind => 12
  }

  function ValueHash(h: Hashes, v: Value): Hash
    decreases v
  {
    match v
    case Rien => HashMix(Tag(v), 0)
    case Entier(n) => HashMix(Tag(v), h.entier(n))
    case Decimal(d) =>
      if IsZero(d) then HashMix(Tag(v), h.double(PositiveZero))
      else if d == NotANumber then HashMix(Tag(v), 1)
      else HashMix(Tag(v), h.double(d))
    case Logique(b) => HashMix(Tag(v), if b then 1 else 0)
    case Symbole(c) => HashMix(Tag(v), c as Hash)
    case Texte(_, text) => HashMix(Tag(v), h.text(text))
    case ListeFixe(_, elements) => ElementsHash(h, Tag(v), elements)
    case ListeFixeNulle => Tag(v)
    case Resultat(success, payload) => HashMix(HashMix(Tag(v), if success then 1 else 0), ValueHash(h, payload))
    case Handle(_, at) => HashMix(Tag(v), h.address(at))
  }

  function ElementsHash(h: Hashes, seed: Hash, elements: seq<Value>): Hash
    decreases elements
  {
    if elements == [] then seed else ElementsHash(h, HashMix(seed, ValueHash(h, elements[0])), elements[1..])
  }

  method HashElements(h: Hashes, tag: Hash, elements: seq<Value>) returns (seed: Hash)
    ensures seed == ElementsHash(h, tag, elements)
  {
    seed := tag;
    for i := 0 to |elements|
      invariant ElementsHash(h, seed, elements[i..]) == ElementsHash(h, tag, elements)
    {
      assert elements[i..][1..] == elements[i + 1..];
      seed := HashMix(seed, ValueHash(h, elements[i]));
    }
  }

  // Values of one heap

  /** What is at each address. */
  datatype Memory = Memory(texts: nat -> Bytes, lists: nat -> seq<Value>)

  /** Every text and fixed list in the value holds what is at its address. */
  predicate Of(m: Memory, v: Value)
    decreases v
  {
    match v
    case Texte(at, text) => text == m.texts(at)
    case ListeFixe(at, elements) => elements == m.lists(at) && AllOf(m, elements)
    case Resultat(_, payload) => Of(m, payload)
    case _ => true
  }

  predicate AllOf(m: Memory, vs: seq<Value>)
    decreases vs
  {
    vs == [] || (Of(m, vs[0]) && AllOf(m, vs[1..]))
  }

  lemma {:induction false} EqualsBack(a: Value, b: Value)
    requires Equals(a, b)
    ensures Equals(b, a)
    decreases a
  {
    if a.Resultat? {
      EqualsBack(a.payload, b.payload);
    } else if a.ListeFixe? && a.at != b.at {
      AllEqualBack(a.elements, b.elements);
    }
  }

  lemma {:induction false} AllEqualBack(s: seq<Value>, t: seq<Value>)
    requires AllEqual(s, t)
    ensures AllEqual(t, s)
    decreases s
  {
    if s != [] {
      EqualsBack(s[0], t[0]);
      AllEqualBack(s[1..], t[1..]);
    }
  }

  /** Two steps of equality make one, although a shared address cuts comparison short. */
  lemma {:induction false} EqualsThrough(m: Memory, a: Value, b: Value, c: Value)
    requires Of(m, a) && Of(m, b) && Of(m, c) && Equals(a, b) && Equals(b, c)
    ensures Equals(a, c)
    decreases a
  {
    if a.Resultat? {
      EqualsThrough(m, a.payload, b.payload, c.payload);
    } else if a.ListeFixe? && a.at != b.at && b.at != c.at {
      AllEqualThrough(m, a.elements, b.elements, c.elements);
    }
  }

  lemma {:induction false} AllEqualThrough(m: Memory, s: seq<Value>, t: seq<Value>, u: seq<Value>)
    requires AllOf(m, s) && AllOf(m, t) && AllOf(m, u) && AllEqual(s, t) && AllEqual(t, u)
    ensures AllEqual(s, u)
    decreases s
  {
    if s != [] {
      EqualsThrough(m, s[0], t[0], u[0]);
      AllEqualThrough(m, s[1..], t[1..], u[1..]);
    }
  }

  /** Equal values of one heap have one hash. */
  lemma {:induction false} EqualValuesHashAlike(m: Memory, h: Hashes, a: Value, b: Value)
    requires Of(m, a) && Of(m, b) && Equals(a, b)
    ensures ValueHash(h, a) == ValueHash(h, b)
    decreases a
  {
    hide HashMix;
    if a.Resultat? {
      EqualValuesHashAlike(m, h, a.payload, b.payload);
    } else if a.ListeFixe? && a.at != b.at {
      EqualElementsHashAlike(m, h, Tag(a), a.elements, b.elements);
    }
  }

  lemma {:induction false} EqualElementsHashAlike(m: Memory, h: Hashes, seed: Hash, s: seq<Value>, t: seq<Value>)
    requires AllOf(m, s) && AllOf(m, t) && AllEqual(s, t)
    ensures ElementsHash(h, seed, s) == ElementsHash(h, seed, t)
    decreases s
  {
    hide HashMix;
    if s != [] {
      EqualValuesHashAlike(m, h, s[0], t[0]);
      EqualElementsHashAlike(m, h, HashMix(seed, ValueHash(h, s[0])), s[1..], t[1..]);
    }
  }

  /** A number that is none, on its own or as the payload of a result, however deep. Inside
      a fixed list it does no harm: the list is at one address. */
  predicate IsNotANumber(v: Value) {
    match v
    case Decimal(d) => d == NotANumber
    case Resultat(_, payload) => IsNotANumber(payload)
    case _ => false
  }

  /** A value equals itself unless it is, or wraps, a number that is none. */
  lemma {:induction false} EqualsItself(v: Value)
    ensures Equals(v, v) <==> !IsNotANumber(v)
    decreases v
  {
    if v.Resultat? {
      EqualsItself(v.payload);
    }
  }

  /** The key a dictionary refuses. */
  predicate KeyIsRejected(v: Value) {
    v.Decimal? && v.d == NotANumber
  }

  /** The refusal misses a number that is none inside a result: such a key is taken, and
      is unequal to itself. Apart from results it catches all of them. */
  lemma {:induction false} RejectionIsExact(v: Value)
    ensures Equals(v, v) <==> !KeyIsRejected(v) && !(v.Resultat? && IsNotANumber(v))
  {
    EqualsItself(v);
  }

  /** The rule of the tables: on the values of one heap it is lawful, whether or not they
      equal themselves. */
  function ValueRule(m: Memory, h: Hashes): Rule<Value> {
    Rule(Equals, v => ValueHash(h, v) as nat, v => Of(m, v))
  }

  lemma ValuesAreLawful(m: Memory, h: Hashes)
    ensures Lawful(ValueRule(m, h))
  {
    var rule := ValueRule(m, h);
    forall a, b | rule.valid(a) && rule.valid(b) && rule.same(a, b) ensures rule.same(b, a) && rule.hash(a) == rule.hash(b) {
      EqualsBack(a, b);
      EqualValuesHashAlike(m, h, a, b);
    }
    forall a, b, c | rule.valid(a) && rule.valid(b) && rule.valid(c) && rule.same(a, b) && rule.same(b, c)
      ensures rule.same(a, c)
    {
      EqualsThrough(m, a, b, c);
    }
  }

  const WRAPPED := Resultat(true, Decimal(NotANumber))

  /** A success that wraps a number that is none: every dictionary takes it as a key, and none
      finds it again. */
  lemma WrappedIsLost<V>(m: Memory, h: Hashes, entries: seq<(Value, V)>, value: V)
    requires AllValid(ValueRule(m, h), EntryKeys(entries)) && Distinct(ValueRule(m, h), EntryKeys(entries))
    ensures !KeyIsRejected(WRAPPED) && !Equals(WRAPPED, WRAPPED)
    ensures Lookup(ValueRule(m, h), Put(ValueRule(m, h), entries, WRAPPED, value), WRAPPED) == None
  {
    ValuesAreLawful(m, h);
    RejectionIsExact(WRAPPED);
    assert !ValueRule(m, h).same(WRAPPED, WRAPPED);
    hide Lawful, AllValid, Distinct, Put, Lookup, ValueRule;
    PutIsFoundExactly(ValueRule(m, h), entries, WRAPPED, value);
  }
}
