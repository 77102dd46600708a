/** What the JSON encoder does with a value on a heap that may hold shared and cyclic
    lists and dictionaries: it succeeds exactly on those that unfold to a finite tree of
    encodable values, and then writes that tree.
 */
module JsonEncoding {
  import opened Numerals
  import opened Utf8
  import opened JsonParsing
  import opened JsonWriting

  type Int64 = n: int | MIN_ENTIER <= n <= MAX_ENTIER

  /** `Decimal` holds its text, or nothing when it is infinite or not a number; `Autre` is
      every kind of value JSON has no form for. A cell is an address on the heap. */
  datatype Value =
    | Rien
    | Logique(b: bool)
    | Entier(n: Int64)
    | Decimal(token: Option<Bytes>)
    | Texte(text: Bytes)
    | Liste(cell: nat)
    | ListeFixe(cell: nat)
    | Dictionnaire(cell: nat)
    | Autre

  datatype Pair = Pair(key: Value, value: Value)

  datatype Cell = Elements(elements: seq<Value>) | Entries(entries: seq<Pair>)

  type Heap = map<nat, Cell>

  datatype Cause = NotFinite | Cyclic | KeyNotTexte | NotEncodable

  datatype Encoding = Done(text: Bytes) | Failed(cause: Cause, path: Bytes)

  predicate HasCell(v: Value) {
    v.Liste? || v.ListeFixe? || v.Dictionnaire?
  }

  /** A list points to elements, a dictionary to entries. */
  predicate In(g: Heap, v: Value) {
    && (v.Liste? || v.ListeFixe? ==> v.cell in g && g[v.cell].Elements?)
    && (v.Dictionnaire? ==> v.cell in g && g[v.cell].Entries?)
  }

  predicate AllIn(g: Heap, vs: seq<Value>) {
    forall k | 0 <= k < |vs| :: In(g, vs[k])
  }

  function Held(c: Cell): seq<Value> {
    if c.Elements? then c.elements else seq(|c.entries|, k requires 0 <= k < |c.entries| => c.entries[k].value)
  }

  predicate Closed(g: Heap) {
    forall r | r in g :: AllIn(g, Held(g[r]))
  }

  // Termination: an ancestor is on the heap, and occurs once.

  predicate OnHeap(g: Heap, ancestors: seq<nat>) {
    forall k | 0 <= k < |ancestors| :: ancestors[k] in g
  }

  function Left(g: Heap, ancestors: seq<nat>): nat {
    |g.Keys - (set k | 0 <= k < |ancestors| :: ancestors[k])|
  }

  lemma OneFewerLeft(g: Heap, ancestors: seq<nat>, r: nat)
    requires r in g && r !in ancestors && OnHeap(g, ancestors)
    ensures Left(g, ancestors + [r]) < Left(g, ancestors) && OnHeap(g, ancestors + [r])
  {
    var before := set k | 0 <= k < |ancestors| :: ancestors[k];
    var all := ancestors + [r];
    var after := set k | 0 <= k < |all| :: all[k];
    assert all[|ancestors|] == r;
    assert g.Keys - after == g.Keys - before - {r} by {
      forall x ensures x in after <==> x in before || x == r {
        if x in before {
          var k :| 0 <= k < |ancestors| && ancestors[k] == x;
          assert all[k] == x;
        }
      }
    }
  }

  // The encoder

  function Before(prefix: Bytes, e: Encoding): Encoding {
    if e.Done? then Done(prefix + e.text) else e
  }

  function Then(e: Encoding, suffix: Bytes): Encoding {
    if e.Done? then Done(e.text + suffix) else e
  }

  function ItemPath(path: Bytes, i: nat): Bytes {
    path + [OPEN_BRACKET] + Numeral(i) + [CLOSE_BRACKET]
  }

  function KeyPath(path: Bytes, key: Bytes): Bytes {
    path + [DOT] + key
  }

  function Separator(i: nat): Bytes {
    if i != 0 then [COMMA] else []
  }

  function Closing(count: nat, o: Options, depth: nat, close: Byte): Bytes {
    (if count == 0 then [] else Indent(o, depth)) + [close]
  }

  function Encoded(g: Heap, v: Value, path: Bytes, ancestors: seq<nat>, o: Options, depth: nat): Encoding
    requires Closed(g) && In(g, v) && OnHeap(g, ancestors)
    decreases Left(g, ancestors), 1, 0
  {
    if v.Rien? then Done(NULL_LITERAL)
    else if v.Logique? then Done(if v.b then TRUE_LITERAL else FALSE_LITERAL)
    else if v.Entier? then Done(IntText(v.n))
    else if v.Decimal? then if v.token.None? then Failed(NotFinite, path) else Done(v.token.value)
    else if v.Texte? then Done(Quoted(v.text))
    else if v.Autre? then Failed(NotEncodable, path)
    else if v.cell in ancestors then Failed(Cyclic, path)
    else
      OneFewerLeft(g, ancestors, v.cell);
      if v.Dictionnaire? then
        var entries := g[v.cell].entries;
        Before([OPEN_BRACE],
               Then(EncodedEntries(g, v.cell, 0, path, ancestors + [v.cell], o, depth),
                    Closing(|entries|, o, depth, CLOSE_BRACE)))
      else
        var elements := g[v.cell].elements;
        Before([OPEN_BRACKET],
               Then(EncodedItems(g, v.cell, 0, path, ancestors + [v.cell], o, depth),
                    Closing(|elements|, o, depth, CLOSE_BRACKET)))
  }

  /** The elements of a list from the `i`-th on. */
  function EncodedItems(g: Heap, r: nat, i: nat, path: Bytes, ancestors: seq<nat>, o: Options, depth: nat): Encoding
    requires Closed(g) && r in g && g[r].Elements? && i <= |g[r].elements| && OnHeap(g, ancestors)
    decreases Left(g, ancestors), 2, |g[r].elements| - i
  {
    if i == |g[r].elements| then Done([])
    else
      assert Held(g[r])[i] == g[r].elements[i];
      var e := Encoded(g, g[r].elements[i], ItemPath(path, i), ancestors, o, depth + 1);
      if e.Failed? then e
      else Before(Separator(i) + Indent(o, depth + 1) + e.text, EncodedItems(g, r, i + 1, path, ancestors, o, depth))
  }

  function EncodedEntries(g: Heap, r: nat, i: nat, path: Bytes, ancestors: seq<nat>, o: Options, depth: nat): Encoding
    requires Closed(g) && r in g && g[r].Entries? && i <= |g[r].entries| && OnHeap(g, ancestors)
    decreases Left(g, ancestors), 2, |g[r].entries| - i
  {
    if i == |g[r].entries| then Done([])
    else if !g[r].entries[i].key.Texte? then Failed(KeyNotTexte, path)
    else
      assert Held(g[r])[i] == g[r].entries[i].value;
      var key := g[r].entries[i].key.text;
      var e := Encoded(g, g[r].entries[i].value, KeyPath(path, key), ancestors, o, depth + 1);
      if e.Failed? then e
      else Before(Separator(i) + Indent(o, depth + 1) + Quoted(key) + [COLON] + AfterColon(o) + e.text,
                  EncodedEntries(g, r, i + 1, path, ancestors, o, depth))
  }

  // The tree a value unfolds to

  predicate Unfolds(g: Heap, v: Value, j: Json)
    decreases j, 0
  {
    match j
    case Rien => v.Rien?
    case Logique(b) => v == Value.Logique(b)
    case Entier(n) => v.Entier? && v.n == n
    case Decimal(token) => v == Value.Decimal(Some(token))
    case Texte(text) => v == Value.Texte(text)
    case Liste(items) =>
      (v.Liste? || v.ListeFixe?) && v.cell in g && g[v.cell].Elements? && ItemsUnfold(g, g[v.cell].elements, items)
    case Dictionnaire(entries) =>
      v.Dictionnaire? && v.cell in g && g[v.cell].Entries? && EntriesUnfold(g, g[v.cell].entries, entries)
  }

  predicate ItemsUnfold(g: Heap, vs: seq<Value>, items: seq<Json>)
    decreases items, 1
  {
    |vs| == |items| && (items != [] ==> Unfolds(g, vs[0], items[0]) && ItemsUnfold(g, vs[1..], items[1..]))
  }

  predicate EntriesUnfold(g: Heap, pairs: seq<Pair>, entries: seq<Entry>)
    decreases entries, 1
  {
    |pairs| == |entries| &&
    (entries != [] ==>
       && pairs[0].key == Value.Texte(entries[0].key) && Unfolds(g, pairs[0].value, entries[0].value)
       && EntriesUnfold(g, pairs[1..], entries[1..]))
  }

  /** A value unfolds to one tree at most. */
  lemma {:induction false} UnfoldsIsUnique(g: Heap, v: Value, w: Value, j: Json, k: Json)
    requires Unfolds(g, v, j) && Unfolds(g, w, k) && (v == w || (HasCell(v) && HasCell(w) && v.cell == w.cell))
    ensures j == k
    decreases j, 0
  {
    if j.Liste? {
      ItemsAreUnique(g, g[v.cell].elements, j.items, k.items);
    } else if j.Dictionnaire? {
      EntriesAreUnique(g, g[v.cell].entries, j.entries, k.entries);
    }
  }

  lemma {:induction false} ItemsAreUnique(g: Heap, vs: seq<Value>, s: seq<Json>, t: seq<Json>)
    requires ItemsUnfold(g, vs, s) && ItemsUnfold(g, vs, t)
    ensures s == t
    decreases s, 1
  {
    if s != [] {
      UnfoldsIsUnique(g, vs[0], vs[0], s[0], t[0]);
      ItemsAreUnique(g, vs[1..], s[1..], t[1..]);
      assert s == [s[0]] + s[1..] && t == [t[0]] + t[1..];
    }
  }

  lemma {:induction false} EntriesAreUnique(g: Heap, ps: seq<Pair>, s: seq<Entry>, t: seq<Entry>)
    requires EntriesUnfold(g, ps, s) && EntriesUnfold(g, ps, t)
    ensures s == t
    decreases s, 1
  {
    if s != [] {
      UnfoldsIsUnique(g, ps[0].value, ps[0].value, s[0].value, t[0].value);
      EntriesAreUnique(g, ps[1..], s[1..], t[1..]);
      assert s == [s[0]] + s[1..] && t == [t[0]] + t[1..];
    }
  }

  // Success: the text is that of the unfolded tree.

  lemma {:induction false} DoneIsWritten(g: Heap, v: Value, path: Bytes, ancestors: seq<nat>, o: Options, depth: nat)
    returns (j: Json)
    requires Closed(g) && In(g, v) && OnHeap(g, ancestors) && Encoded(g, v, path, ancestors, o, depth).Done?
    ensures Unfolds(g, v, j) && Encoded(g, v, path, ancestors, o, depth).text == Written(j, o, depth)
    decreases Left(g, ancestors), 1, 0
  {
    hide Closed, OnHeap, Left, Quoted, IntText, Indent, EncodedItems, EncodedEntries, WrittenItems, WrittenEntries, Held,
      ItemsUnfold, EntriesUnfold;
    if v.Rien? {
      j := Json.Rien;
    } else if v.Logique? {
      j := Json.Logique(v.b);
    } else if v.Entier? {
      j := Json.Entier(v.n);
    } else if v.Decimal? {
      j := Json.Decimal(v.token.value);
    } else if v.Texte? {
      j := Json.Texte(v.text);
    } else if v.Dictionnaire? {
      OneFewerLeft(g, ancestors, v.cell);
      var entries := EntriesAreWritten(g, v.cell, 0, path, ancestors + [v.cell], o, depth);
      j := Json.Dictionnaire(entries);
      assert g[v.cell].entries[0..] == g[v.cell].entries;
      assert [] + WrittenEntries(entries, o, depth) == WrittenEntries(entries, o, depth);
      WholeBody(OPEN_BRACE, WrittenEntries(entries, o, depth), if entries == [] then [] else Indent(o, depth), CLOSE_BRACE);
    } else {
      OneFewerLeft(g, ancestors, v.cell);
      var items := ItemsAreWritten(g, v.cell, 0, path, ancestors + [v.cell], o, depth);
      j := Json.Liste(items);
      assert g[v.cell].elements[0..] == g[v.cell].elements;
      assert [] + WrittenItems(items, o, depth) == WrittenItems(items, o, depth);
      WholeBody(OPEN_BRACKET, WrittenItems(items, o, depth), if items == [] then [] else Indent(o, depth), CLOSE_BRACKET);
    }
  }

  lemma WholeBody(open: Byte, body: Bytes, indent: Bytes, close: Byte)
    ensures [open] + (body + (indent + [close])) == [open] + body + indent + [close]
  {}

  lemma {:induction false} ItemsAreWritten(g: Heap, r: nat, i: nat, path: Bytes, ancestors: seq<nat>, o: Options,
            depth: nat)
    returns (items: seq<Json>)
    requires Closed(g) && r in g && g[r].Elements? && i <= |g[r].elements| && OnHeap(g, ancestors)
    requires EncodedItems(g, r, i, path, ancestors, o, depth).Done?
    ensures ItemsUnfold(g, g[r].elements[i..], items) && |items| == |g[r].elements| - i
    ensures EncodedItems(g, r, i, path, ancestors, o, depth).text ==
            (if items == [] then [] else Separator(i)) + WrittenItems(items, o, depth)
    decreases Left(g, ancestors), 2, |g[r].elements| - i
  {
    items := [];
    if i < |g[r].elements| {
      assert Held(g[r])[i] == g[r].elements[i];
      hide Closed, OnHeap, Left, Encoded, Indent, Held, Written, Unfolds;
      var j := DoneIsWritten(g, g[r].elements[i], ItemPath(path, i), ancestors, o, depth + 1);
      var rest := ItemsAreWritten(g, r, i + 1, path, ancestors, o, depth);
      items := [j] + rest;
      assert items[1..] == rest && g[r].elements[i..][1..] == g[r].elements[i + 1..];
      PieceThenRest(Separator(i), Indent(o, depth + 1), Written(j, o, depth + 1),
                    if rest == [] then [] else [COMMA] + WrittenItems(rest, o, depth));
      NoneLeft(rest, o, depth);
    }
  }

  lemma NoneLeft(rest: seq<Json>, o: Options, depth: nat)
    ensures rest == [] ==> WrittenItems(rest, o, depth) == []
  {}

  lemma PieceThenRest(separator: Bytes, indent: Bytes, piece: Bytes, rest: Bytes)
    ensures separator + indent + piece + rest == separator + (indent + piece + rest)
  {}

  lemma {:induction false} EntriesAreWritten(g: Heap, r: nat, i: nat, path: Bytes, ancestors: seq<nat>, o: Options,
            depth: nat)
    returns (entries: seq<Entry>)
    requires Closed(g) && r in g && g[r].Entries? && i <= |g[r].entries| && OnHeap(g, ancestors)
    requires EncodedEntries(g, r, i, path, ancestors, o, depth).Done?
    ensures EntriesUnfold(g, g[r].entries[i..], entries) && |entries| == |g[r].entries| - i
    ensures EncodedEntries(g, r, i, path, ancestors, o, depth).text ==
            (if entries == [] then [] else Separator(i)) + WrittenEntries(entries, o, depth)
    decreases Left(g, ancestors), 2, |g[r].entries| - i
  {
    entries := [];
    if i < |g[r].entries| {
      assert Held(g[r])[i] == g[r].entries[i].value;
      hide Closed, OnHeap, Left, Encoded, Indent, Held, Written, Unfolds, Quoted, AfterColon;
      var key := g[r].entries[i].key.text;
      var j := DoneIsWritten(g, g[r].entries[i].value, KeyPath(path, key), ancestors, o, depth + 1);
      var rest := EntriesAreWritten(g, r, i + 1, path, ancestors, o, depth);
      entries := [Entry(key, j)] + rest;
      assert entries[1..] == rest && g[r].entries[i..][1..] == g[r].entries[i + 1..];
      EntryThenRest(Separator(i), Indent(o, depth + 1), Quoted(key), [COLON], AfterColon(o), Written(j, o, depth + 1),
                    if rest == [] then [] else [COMMA] + WrittenEntries(rest, o, depth));
      NoEntryLeft(rest, o, depth);
    }
  }

  lemma NoEntryLeft(rest: seq<Entry>, o: Options, depth: nat)
    ensures rest == [] ==> WrittenEntries(rest, o, depth) == []
  {}

  lemma EntryThenRest(separator: Bytes, indent: Bytes, key: Bytes, colon: Bytes, space: Bytes, piece: Bytes,
            rest: Bytes)
    ensures separator + indent + key + colon + space + piece + rest
         == separator + (indent + key + colon + space + piece + rest)
  {}

  // Failure: some walk through the heap meets what cannot be encoded.

  /** The cells of `w` are met one inside the other, the first being that of `v`. */
  ghost predicate Walk(g: Heap, v: Value, w: seq<nat>)
    decreases |w|
  {
    w == [] ||
    (HasCell(v) && v.cell == w[0] && w[0] in g &&
     (|w| == 1 || exists x | x in Held(g[w[0]]) :: Walk(g, x, w[1..])))
  }

  predicate BadLeaf(cause: Cause, v: Value) {
    (cause == NotFinite && v.Decimal? && v.token.None?) || (cause == NotEncodable && v.Autre?)
  }

  predicate SomeKeyIsNotTexte(c: Cell) {
    c.Entries? && exists k | 0 <= k < |c.entries| :: !c.entries[k].key.Texte?
  }

  /** What is wrong at the end of a walk: a cell met before, a value or a key that has no
      form in JSON. */
  ghost predicate Fault(g: Heap, v: Value, ancestors: seq<nat>, w: seq<nat>, cause: Cause) {
    if w == [] then BadLeaf(cause, v)
    else
      var last := w[|w| - 1];
      || (cause == Cyclic && last in ancestors + w[..|w| - 1])
      || (last in g && exists x | x in Held(g[last]) :: BadLeaf(cause, x))
      || (last in g && cause == KeyNotTexte && SomeKeyIsNotTexte(g[last]))
  }

  lemma {:induction false} FailureHasFault(g: Heap, v: Value, path: Bytes, ancestors: seq<nat>, o: Options, depth: nat)
    returns (w: seq<nat>)
    requires Closed(g) && In(g, v) && OnHeap(g, ancestors) && Encoded(g, v, path, ancestors, o, depth).Failed?
    ensures Walk(g, v, w) && Fault(g, v, ancestors, w, Encoded(g, v, path, ancestors, o, depth).cause)
    decreases Left(g, ancestors), 1, 0
  {
    hide Closed, OnHeap, Left, Quoted, IntText, Indent, EncodedItems, EncodedEntries, Held;
    w := [];
    if HasCell(v) {
      if v.cell in ancestors {
        w := [v.cell];
      } else {
        OneFewerLeft(g, ancestors, v.cell);
        if v.Dictionnaire? {
          w := EntriesHaveFault(g, v, 0, path, ancestors, o, depth);
        } else {
          w := ItemsHaveFault(g, v, 0, path, ancestors, o, depth);
        }
      }
    }
  }

  /** A fault inside a cell is a fault of the value that points to the cell. */
  lemma OneCellUp(g: Heap, v: Value, x: Value, ancestors: seq<nat>, w: seq<nat>, cause: Cause)
    requires HasCell(v) && v.cell in g && x in Held(g[v.cell])
    requires Walk(g, x, w) && Fault(g, x, ancestors + [v.cell], w, cause)
    ensures Walk(g, v, [v.cell] + w) && Fault(g, v, ancestors, [v.cell] + w, cause)
  {
    hide BadLeaf, Held;
    var all := [v.cell] + w;
    assert all[1..] == w;
    if w != [] {
      assert all[|all| - 1] == w[|w| - 1];
      assert ancestors + [v.cell] + w[..|w| - 1] == ancestors + all[..|all| - 1];
    }
  }

  lemma {:induction false} ItemsHaveFault(g: Heap, v: Value, i: nat, path: Bytes, ancestors: seq<nat>, o: Options,
            depth: nat)
    returns (w: seq<nat>)
    requires Closed(g) && (v.Liste? || v.ListeFixe?) && In(g, v) && i <= |g[v.cell].elements|
    requires OnHeap(g, ancestors + [v.cell])
    requires EncodedItems(g, v.cell, i, path, ancestors + [v.cell], o, depth).Failed?
    ensures Walk(g, v, w)
    ensures Fault(g, v, ancestors, w, EncodedItems(g, v.cell, i, path, ancestors + [v.cell], o, depth).cause)
    decreases Left(g, ancestors + [v.cell]), 2, |g[v.cell].elements| - i
  {
    var x, below := g[v.cell].elements[i], ancestors + [v.cell];
    assert Held(g[v.cell])[i] == x;
    hide Closed, OnHeap, Left, Encoded, Indent, Held, Walk, Fault;
    if Encoded(g, x, ItemPath(path, i), below, o, depth + 1).Failed? {
      w := FailureHasFault(g, x, ItemPath(path, i), below, o, depth + 1);
      OneCellUp(g, v, x, ancestors, w, Encoded(g, x, ItemPath(path, i), below, o, depth + 1).cause);
      w := [v.cell] + w;
    } else {
      w := ItemsHaveFault(g, v, i + 1, path, ancestors, o, depth);
    }
  }

  lemma {:induction false} EntriesHaveFault(g: Heap, v: Value, i: nat, path: Bytes, ancestors: seq<nat>, o: Options,
            depth: nat)
    returns (w: seq<nat>)
    requires Closed(g) && v.Dictionnaire? && In(g, v) && i <= |g[v.cell].entries|
    requires OnHeap(g, ancestors + [v.cell])
    requires EncodedEntries(g, v.cell, i, path, ancestors + [v.cell], o, depth).Failed?
    ensures Walk(g, v, w)
    ensures Fault(g, v, ancestors, w, EncodedEntries(g, v.cell, i, path, ancestors + [v.cell], o, depth).cause)
    decreases Left(g, ancestors + [v.cell]), 2, |g[v.cell].entries| - i
  {
    var e, below := g[v.cell].entries[i], ancestors + [v.cell];
    if !e.key.Texte? {
      w := [v.cell];
    } else {
      assert Held(g[v.cell])[i] == e.value;
      hide Closed, OnHeap, Left, Encoded, Indent, Held, Walk, Fault, Quoted, AfterColon;
      var p := KeyPath(path, e.key.text);
      if Encoded(g, e.value, p, below, o, depth + 1).Failed? {
        w := FailureHasFault(g, e.value, p, below, o, depth + 1);
        OneCellUp(g, v, e.value, ancestors, w, Encoded(g, e.value, p, below, o, depth + 1).cause);
        w := [v.cell] + w;
      } else {
        w := EntriesHaveFault(g, v, i + 1, path, ancestors, o, depth);
      }
    }
  }

  // A value that unfolds has no fault.

  lemma {:induction false} ItemUnfolds(g: Heap, vs: seq<Value>, items: seq<Json>, k: nat)
    requires ItemsUnfold(g, vs, items) && k < |vs|
    ensures k < |items| && Unfolds(g, vs[k], items[k])
    decreases k
  {
    if k > 0 {
      ItemUnfolds(g, vs[1..], items[1..], k - 1);
    }
  }

  lemma {:induction false} EntryUnfolds(g: Heap, ps: seq<Pair>, entries: seq<Entry>, k: nat)
    requires EntriesUnfold(g, ps, entries) && k < |ps|
    ensures k < |entries| && ps[k].key.Texte? && Unfolds(g, ps[k].value, entries[k].value)
    decreases k
  {
    if k > 0 {
      EntryUnfolds(g, ps[1..], entries[1..], k - 1);
    }
  }

  /** What a cell holds unfolds to smaller trees. */
  lemma HeldUnfolds(g: Heap, v: Value, j: Json, x: Value) returns (i: Json)
    requires Unfolds(g, v, j) && HasCell(v) && v.cell in g && x in Held(g[v.cell])
    ensures Unfolds(g, x, i) && i < j
  {
    var k :| 0 <= k < |Held(g[v.cell])| && Held(g[v.cell])[k] == x;
    if j.Liste? {
      ItemUnfolds(g, g[v.cell].elements, j.items, k);
      i := j.items[k];
    } else {
      EntryUnfolds(g, g[v.cell].entries, j.entries, k);
      i := j.entries[k].value;
      assert j.entries[k] < j;
    }
  }

  lemma LeafIsGood(g: Heap, v: Value, j: Json, cause: Cause)
    requires Unfolds(g, v, j)
    ensures !BadLeaf(cause, v)
  {}

  lemma KeysAreTexte(g: Heap, v: Value, j: Json)
    requires Unfolds(g, v, j) && HasCell(v) && v.cell in g
    ensures !SomeKeyIsNotTexte(g[v.cell])
  {
    if SomeKeyIsNotTexte(g[v.cell]) {
      var k :| 0 <= k < |g[v.cell].entries| && !g[v.cell].entries[k].key.Texte?;
      EntryUnfolds(g, g[v.cell].entries, j.entries, k);
    }
  }

  /** Every cell of a walk unfolds, the later ones to smaller trees. */
  lemma {:induction false} AlongUnfolds(g: Heap, v: Value, j: Json, w: seq<nat>, k: nat) returns (x: Value, i: Json)
    requires Unfolds(g, v, j) && Walk(g, v, w) && k < |w|
    ensures HasCell(x) && x.cell == w[k] && w[k] in g && Unfolds(g, x, i) && Walk(g, x, w[k..])
    ensures if k == 0 then i == j else i < j
    decreases k
  {
    hide Unfolds, Held;
    if k == 0 {
      x, i := v, j;
      assert w[0..] == w;
    } else {
      var y :| y in Held(g[w[0]]) && Walk(g, y, w[1..]);
      var below := HeldUnfolds(g, v, j, y);
      x, i := AlongUnfolds(g, y, below, w[1..], k - 1);
      assert w[1..][k - 1..] == w[k..];
    }
  }

  lemma UnfoldsWithoutFault(g: Heap, v: Value, j: Json, w: seq<nat>, cause: Cause)
    requires Unfolds(g, v, j) && Walk(g, v, w)
    ensures !Fault(g, v, [], w, cause)
  {
    hide Unfolds, Held, Walk, BadLeaf, SomeKeyIsNotTexte;
    if w == [] {
      LeafIsGood(g, v, j, cause);
    } else {
      var n := |w| - 1;
      var x, i := AlongUnfolds(g, v, j, w, n);
      KeysAreTexte(g, x, i);
      forall y | y in Held(g[w[n]]) ensures !BadLeaf(cause, y) {
        var b := HeldUnfolds(g, x, i, y);
        LeafIsGood(g, y, b, cause);
      }
      assert [] + w[..n] == w[..n];
      forall k | 0 <= k < n ensures w[k] != w[n] {
        NoCellTwice(g, v, j, w, k, n);
      }
    }
  }

  lemma NoCellTwice(g: Heap, v: Value, j: Json, w: seq<nat>, k: nat, n: nat)
    requires Unfolds(g, v, j) && Walk(g, v, w) && k < n < |w|
    ensures w[k] != w[n]
  {
    hide Unfolds, Held, Walk;
    var x, i := AlongUnfolds(g, v, j, w, k);
    var y, b := AlongUnfolds(g, x, i, w[k..], n - k);
    if w[k] == w[n] {
      UnfoldsIsUnique(g, x, y, i, b);
    }
  }

  // The main results

  /** Some walk from the value meets a cell it has met, a value or a key without a form. */
  ghost predicate HasFault(g: Heap, v: Value) {
    exists w, cause :: Walk(g, v, w) && Fault(g, v, [], w, cause)
  }

  /** The encoder succeeds exactly when no walk from the value ends in a fault: sharing is
      no fault, meeting an ancestor is. A failure reports the cause of such a fault. */
  lemma EncodesExactly(g: Heap, v: Value, path: Bytes, o: Options)
    requires Closed(g) && In(g, v)
    ensures var e := Encoded(g, v, path, [], o, 0);
            && (e.Done? <==> !HasFault(g, v))
            && (e.Failed? ==> exists w :: Walk(g, v, w) && Fault(g, v, [], w, e.cause))
  {
    hide Encoded, Walk, Fault, Unfolds, Closed;
    var e := Encoded(g, v, path, [], o, 0);
    if e.Done? {
      var j := DoneIsWritten(g, v, path, [], o, 0);
      forall w, cause | Walk(g, v, w) ensures !Fault(g, v, [], w, cause) {
        UnfoldsWithoutFault(g, v, j, w, cause);
      }
    } else {
      var w := FailureHasFault(g, v, path, [], o, 0);
    }
  }

  /** Success, the unfolding and its text are one: the encoder succeeds exactly on what
      unfolds to a finite tree, and writes that tree. */
  lemma EncodesTheUnfolding(g: Heap, v: Value, path: Bytes, o: Options, j: Json)
    requires Closed(g) && In(g, v)
    ensures Unfolds(g, v, j) ==> Encoded(g, v, path, [], o, 0) == Done(Written(j, o, 0))
  {
    hide Encoded, Walk, Fault, Unfolds, Closed, Written;
    if Unfolds(g, v, j) {
      var e := Encoded(g, v, path, [], o, 0);
      if e.Failed? {
        var w := FailureHasFault(g, v, path, [], o, 0);
        UnfoldsWithoutFault(g, v, j, w, e.cause);
      } else {
        var k := DoneIsWritten(g, v, path, [], o, 0);
        UnfoldsIsUnique(g, v, v, j, k);
      }
    }
  }

  /** What the language keeps: texts are valid and the keys of a dictionary distinct.
      Decimals are left out of the round trip. */
  predicate PlainValue(v: Value) {
    !v.Decimal? && (v.Texte? ==> ValidText(v.text))
  }

  predicate DistinctPairs(pairs: seq<Pair>) {
    forall i, k | 0 <= i < k < |pairs| :: pairs[i].key != pairs[k].key
  }

  predicate PlainCell(c: Cell) {
    && (forall k | 0 <= k < |Held(c)| :: PlainValue(Held(c)[k]))
    && (c.Entries? ==> DistinctPairs(c.entries) && forall k | 0 <= k < |c.entries| :: PlainValue(c.entries[k].key))
  }

  predicate PlainHeap(g: Heap) {
    forall r | r in g :: PlainCell(g[r])
  }

  lemma {:induction false} PlainUnfolds(g: Heap, v: Value, j: Json)
    requires PlainHeap(g) && PlainValue(v) && Unfolds(g, v, j)
    ensures Clean(j)
    decreases j, 0
  {
    hide ValidText, PlainValue, ItemsUnfold, EntriesUnfold, CleanItems, CleanEntries;
    match j {
      case Rien =>
      case Logique(_) =>
      case Entier(_) =>
      case Decimal(_) => PlainLeaf(v);
      case Texte(_) => PlainLeaf(v);
      case Liste(items) =>
        assert forall k | 0 <= k < |g[v.cell].elements| :: Held(g[v.cell])[k] == g[v.cell].elements[k];
        PlainItems(g, g[v.cell].elements, items);
      case Dictionnaire(entries) =>
        assert forall k | 0 <= k < |g[v.cell].entries| :: Held(g[v.cell])[k] == g[v.cell].entries[k].value;
        PlainEntries(g, g[v.cell].entries, entries, {});
    }
  }

  lemma PlainLeaf(v: Value)
    requires PlainValue(v)
    ensures !v.Decimal? && (v.Texte? ==> ValidText(v.text))
  {}

  lemma {:induction false} PlainItems(g: Heap, vs: seq<Value>, items: seq<Json>)
    requires PlainHeap(g) && ItemsUnfold(g, vs, items) && forall k | 0 <= k < |vs| :: PlainValue(vs[k])
    ensures CleanItems(items)
    decreases items, 1
  {
    hide PlainHeap, PlainValue, Clean, Unfolds;
    if items != [] {
      PlainUnfolds(g, vs[0], items[0]);
      PlainItems(g, vs[1..], items[1..]);
    }
  }

  lemma {:induction false} PlainEntries(g: Heap, ps: seq<Pair>, entries: seq<Entry>, seen: set<Bytes>)
    requires PlainHeap(g) && EntriesUnfold(g, ps, entries) && DistinctPairs(ps)
    requires forall k | 0 <= k < |ps| :: PlainValue(ps[k].value) && PlainValue(ps[k].key)
    requires forall k | 0 <= k < |ps| :: ps[k].key.Texte? ==> ps[k].key.text !in seen
    ensures CleanEntries(entries, seen)
    decreases entries, 1
  {
    hide PlainHeap, PlainValue, Clean, Unfolds, ValidText;
    if entries != [] {
      PlainLeaf(ps[0].key);
      PlainUnfolds(g, ps[0].value, entries[0].value);
      PlainEntries(g, ps[1..], entries[1..], seen + {entries[0].key});
    }
  }

  /** Reading back what was written for a value of the heap, however it was indented, gives
      its unfolding, with the entries in the same order. */
  lemma EncodingIsReadBack(g: Heap, v: Value, path: Bytes, o: Options, finite: Bytes -> bool) returns (j: Json)
    requires Closed(g) && In(g, v) && PlainHeap(g) && PlainValue(v) && Encoded(g, v, path, [], o, 0).Done?
    ensures Unfolds(g, v, j)
    ensures var text := Encoded(g, v, path, [], o, 0).text;
            Document(text, finite) == Result.Ok(j, |text|)
  {
    hide Encoded, Unfolds, Closed, Written, Document, Clean, PlainHeap;
    j := DoneIsWritten(g, v, path, [], o, 0);
    PlainUnfolds(g, v, j);
    RoundTrip(j, o, finite);
  }
}
