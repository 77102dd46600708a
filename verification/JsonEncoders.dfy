/** The JSON encoder: it appends to `out` and keeps the cells being written on a stack. */
module JsonEncoders {
  import opened Numerals
  import opened Utf8
  import opened JsonParsing
  import opened JsonGrammar
  import opened JsonWriting
  import opened JsonEncoding

  datatype EncodeError = EncodeError(cause: JsonEncoding.Cause, path: Bytes)

  /** What one character becomes inside quotes. */
  method EscapeCharacter(ch: int) returns (s: Bytes)
    requires IsScalar(ch)
    ensures ChrOk(Escaped(ch)) && s == ChrText(Escaped(ch))
  {
    EscapedMeansItself(ch);
    if ch == QUOTE {
      s := [BACKSLASH, QUOTE];
    } else if ch == BACKSLASH {
      s := [BACKSLASH, BACKSLASH];
    } else if ch == 0x08 {
      s := [BACKSLASH, 0x62];
    } else if ch == 0x0C {
      s := [BACKSLASH, 0x66];
    } else if ch == NEWLINE {
      s := [BACKSLASH, 0x6E];
    } else if ch == RETURN {
      s := [BACKSLASH, 0x72];
    } else if ch == TAB {
      s := [BACKSLASH, 0x74];
    } else if ch < 0x20 {
      s := [BACKSLASH, 0x75, HexDigit(ch / 4096 % 16), HexDigit(ch / 256 % 16), HexDigit(ch / 16 % 16), HexDigit(ch % 16)];
    } else {
      s := EncodeCharacter(ch);
    }
  }

  /** What is left to write of a text from an offset on. */
  function RestEscaped(text: Bytes, i: nat): Bytes
    requires i <= |text|
  {
    EscapedIsRepaired(text, i);
    CharsText(EscapedFrom(text, i))
  }

  lemma QuotedIs(text: Bytes)
    ensures Quoted(text) == [QUOTE] + RestEscaped(text, 0) + [QUOTE] && RestEscaped(text, |text|) == []
  {}

  lemma NextEscaped(text: Bytes, i: nat)
    requires i < |text|
    ensures IsScalar(Next(text, i).character) && ChrOk(Escaped(Next(text, i).character))
    ensures RestEscaped(text, i) == ChrText(Escaped(Next(text, i).character)) + RestEscaped(text, Next(text, i).next)
    ensures Decode(text, i).Some? ==> Next(text, i) == Decode(text, i).value
    ensures Decode(text, i).None? ==> Next(text, i) == Decoded(0xFFFD, i + 1)
  {
    hide Decode, Escaped, ChrText, ChrOk, ChrMeaning, Encode;
    EscapedIsRepaired(text, Next(text, i).next);
    EscapedMeansItself(Next(text, i).character);
    OneMoreEscaped(Escaped(Next(text, i).character), EscapedFrom(text, Next(text, i).next));
  }

  lemma ReplacementIsPlain()
    ensures IsScalar(0xFFFD) && ChrOk(Escaped(0xFFFD)) && ChrText(Escaped(0xFFFD)) == [0xEF, 0xBF, 0xBD]
  {}

  method EscapeJsonString(text: Bytes) returns (out: Bytes)
    ensures out == Quoted(text)
  {
    hide Quoted, RestEscaped, Next, Decode, Escaped, ChrOk, ChrText, IsScalar;
    out := [QUOTE];
    var i := 0;
    QuotedIs(text);
    while i < |text|
      invariant i <= |text|
      invariant out + RestEscaped(text, i) + [QUOTE] == Quoted(text)
    {
      NextEscaped(text, i);
      var d := DecodeOne(text, i);
      var piece: Bytes;
      if d.None? {
        piece := [0xEF, 0xBF, 0xBD];
        ReplacementIsPlain();
        i := i + 1;
      } else {
        piece := EscapeCharacter(d.value.character);
        i := d.value.next;
      }
      assert out + (piece + RestEscaped(text, i)) == out + piece + RestEscaped(text, i);
      out := out + piece;
    }
    assert out + [] == out;
    out := out + [QUOTE];
  }

  class JsonEncoder {
    const heap: Heap
    const options: Options
    var out: Bytes
    var ancestors: seq<nat>

    constructor (heap: Heap, options: Options)
      ensures this.heap == heap && this.options == options && out == [] && ancestors == []
    {
      this.heap, this.options := heap, options;
      out, ancestors := [], [];
    }

    method WriteIndent(depth: nat)
      modifies `out
      ensures out == old(out) + Indent(options, depth)
    {
      if !options.pretty {
        assert out + [] == out;
        return;
      }
      out := out + [NEWLINE];
      out := out + Spaces(options.indent * depth);
      assert out == old(out) + Indent(options, depth);
    }

    /** What a part of the encoder did: appended the text, or failed. */
    ghost predicate Did(e: Encoding, error: Option<EncodeError>, outBefore: Bytes, ancestorsBefore: seq<nat>)
      reads this
    {
      match e
      case Done(text) => error == None && out == outBefore + text && ancestors == ancestorsBefore
      case Failed(cause, path) => error == Some(EncodeError(cause, path))
    }

    method EncodeValue(value: Value, path: Bytes, depth: nat) returns (error: Option<EncodeError>)
      requires Closed(heap) && In(heap, value) && OnHeap(heap, ancestors)
      modifies this
      ensures Did(Encoded(heap, value, path, old(ancestors), options, depth), error, old(out), old(ancestors))
      decreases Left(heap, ancestors), 1, 0
    {
      hide Closed, OnHeap, Left, Quoted, IntText, Indent, EncodedItems, EncodedEntries, Held;
      error := None;
      if value.Rien? {
        out := out + NULL_LITERAL;
      } else if value.Logique? {
        out := out + if value.b then TRUE_LITERAL else FALSE_LITERAL;
      } else if value.Entier? {
        out := out + IntText(value.n);
      } else if value.Decimal? {
        if value.token.None? {
          return Some(EncodeError(NotFinite, path));
        }
        out := out + value.token.value;
      } else if value.Texte? {
        var text := EscapeJsonString(value.text);
        out := out + text;
      } else if value.Liste? || value.ListeFixe? {
        if value.cell in ancestors {
          return Some(EncodeError(Cyclic, path));
        }
        error := EncodeList(value, path, depth);
      } else if value.Dictionnaire? {
        if value.cell in ancestors {
          return Some(EncodeError(Cyclic, path));
        }
        error := EncodeDictionary(value, path, depth);
      } else {
        return Some(EncodeError(NotEncodable, path));
      }
    }

    method EncodeList(value: Value, path: Bytes, depth: nat) returns (error: Option<EncodeError>)
      requires Closed(heap) && In(heap, value) && OnHeap(heap, ancestors)
      requires (value.Liste? || value.ListeFixe?) && value.cell !in ancestors
      modifies this
      ensures Did(Encoded(heap, value, path, old(ancestors), options, depth), error, old(out), old(ancestors))
      decreases Left(heap, ancestors), 0, 0
    {
      hide Closed, OnHeap, Left, Indent, EncodedItems, Held, ItemPath, Encoded, Before, Closing, Then;
      ListIs(heap, value, path, ancestors, options, depth);
      OneFewerLeft(heap, ancestors, value.cell);
      var start := ancestors;
      ancestors := ancestors + [value.cell];
      var elements := heap[value.cell].elements;
      out := out + [OPEN_BRACKET];
      ghost var head := out;
      ghost var whole := EncodedItems(heap, value.cell, 0, path, ancestors, options, depth);
      ghost var written: Bytes := [];
      NothingBefore(whole);
      for i := 0 to |elements|
        invariant ancestors == start + [value.cell] && OnHeap(heap, ancestors)
        invariant out == head + written
        invariant whole == Before(written, EncodedItems(heap, value.cell, i, path, ancestors, options, depth))
      {
        NextItem(heap, value.cell, i, path, ancestors, options, depth, written);
        if i != 0 {
          out := out + [COMMA];
        }
        WriteIndent(depth + 1);
        error := EncodeValue(elements[i], ItemPath(path, i), depth + 1);
        if error.Some? {
          FailsThrough(whole, OPEN_BRACKET, |elements|, options, depth, CLOSE_BRACKET);
          return;
        }
        ghost var piece := Encoded(heap, elements[i], ItemPath(path, i), ancestors, options, depth + 1).text;
        AppendItem(head, written, Separator(i), Indent(options, depth + 1), piece);
        written := written + (Separator(i) + Indent(options, depth + 1) + piece);
      }
      NoItemLeft(heap, value.cell, path, ancestors, options, depth);
      if elements != [] {
        WriteIndent(depth);
      }
      out := out + [CLOSE_BRACKET];
      ancestors := ancestors[..|ancestors| - 1];
      error := None;
      assert ancestors == start;
      Finish(whole, old(out), OPEN_BRACKET, written, |elements|, options, depth, CLOSE_BRACKET);
    }

    method EncodeDictionary(value: Value, path: Bytes, depth: nat) returns (error: Option<EncodeError>)
      requires Closed(heap) && In(heap, value) && OnHeap(heap, ancestors)
      requires value.Dictionnaire? && value.cell !in ancestors
      modifies this
      ensures Did(Encoded(heap, value, path, old(ancestors), options, depth), error, old(out), old(ancestors))
      decreases Left(heap, ancestors), 0, 0
    {
      hide Closed, OnHeap, Left, Indent, EncodedEntries, Held, Quoted, AfterColon, KeyPath, Encoded, Before, Closing, Then,
        EntryPiece, Separator;
      DictionaryIs(heap, value, path, ancestors, options, depth);
      OneFewerLeft(heap, ancestors, value.cell);
      var start := ancestors;
      ancestors := ancestors + [value.cell];
      var entries := heap[value.cell].entries;
      out := out + [OPEN_BRACE];
      ghost var head := out;
      ghost var whole := EncodedEntries(heap, value.cell, 0, path, ancestors, options, depth);
      ghost var written: Bytes := [];
      NothingBefore(whole);
      for i := 0 to |entries|
        invariant ancestors == start + [value.cell] && OnHeap(heap, ancestors)
        invariant out == head + written
        invariant whole == Before(written, EncodedEntries(heap, value.cell, i, path, ancestors, options, depth))
      {
        NextEntry(heap, value.cell, i, path, ancestors, options, depth, written);
        if !entries[i].key.Texte? {
          FailsThrough(whole, OPEN_BRACE, |entries|, options, depth, CLOSE_BRACE);
          return Some(EncodeError(KeyNotTexte, path));
        }
        var key := entries[i].key.text;
        WriteKey(i, key, depth);
        error := EncodeValue(entries[i].value, KeyPath(path, key), depth + 1);
        if error.Some? {
          FailsThrough(whole, OPEN_BRACE, |entries|, options, depth, CLOSE_BRACE);
          return;
        }
        ghost var piece := Encoded(heap, entries[i].value, KeyPath(path, key), ancestors, options, depth + 1).text;
        ghost var all := EntryPiece(Separator(i), Indent(options, depth + 1), Quoted(key), AfterColon(options), piece);
        AppendEntry(head, written, Separator(i), Indent(options, depth + 1), Quoted(key), AfterColon(options), piece);
        written := written + all;
      }
      NoEntryAfter(heap, value.cell, path, ancestors, options, depth);
      if entries != [] {
        WriteIndent(depth);
      }
      out := out + [CLOSE_BRACE];
      ancestors := ancestors[..|ancestors| - 1];
      error := None;
      assert ancestors == start;
      Finish(whole, old(out), OPEN_BRACE, written, |entries|, options, depth, CLOSE_BRACE);
    }

    /** What stands before the value of an entry. */
    method WriteKey(i: nat, key: Bytes, depth: nat)
      modifies `out
      ensures out == old(out) + Separator(i) + Indent(options, depth + 1) + Quoted(key) + [COLON] + AfterColon(options)
    {
      hide Indent, Quoted;
      if i != 0 {
        out := out + [COMMA];
      }
      assert out == old(out) + Separator(i);
      WriteIndent(depth + 1);
      var quoted := EscapeJsonString(key);
      out := out + quoted;
      out := out + if options.pretty then [COLON, SPACE] else [COLON];
    }
  }

  lemma NothingBefore(e: Encoding)
    ensures Before([], e) == e
  {
    if e.Done? {
      assert [] + e.text == e.text;
    }
  }

  lemma ListIs(g: Heap, v: Value, path: Bytes, ancestors: seq<nat>, o: Options, depth: nat)
    requires Closed(g) && In(g, v) && OnHeap(g, ancestors) && (v.Liste? || v.ListeFixe?) && v.cell !in ancestors
    ensures OnHeap(g, ancestors + [v.cell])
    ensures Encoded(g, v, path, ancestors, o, depth) ==
            Before([OPEN_BRACKET], Then(EncodedItems(g, v.cell, 0, path, ancestors + [v.cell], o, depth),
                                        Closing(|g[v.cell].elements|, o, depth, CLOSE_BRACKET)))
  {
    hide Closed, Left, EncodedItems, Closing;
  }

  lemma DictionaryIs(g: Heap, v: Value, path: Bytes, ancestors: seq<nat>, o: Options, depth: nat)
    requires Closed(g) && In(g, v) && OnHeap(g, ancestors) && v.Dictionnaire? && v.cell !in ancestors
    ensures OnHeap(g, ancestors + [v.cell])
    ensures Encoded(g, v, path, ancestors, o, depth) ==
            Before([OPEN_BRACE], Then(EncodedEntries(g, v.cell, 0, path, ancestors + [v.cell], o, depth),
                                      Closing(|g[v.cell].entries|, o, depth, CLOSE_BRACE)))
  {
    hide Closed, Left, EncodedEntries, Closing;
  }

  /** Everything is written once the closing bracket is. */
  lemma Finish(whole: Encoding, before: Bytes, open: Byte, written: Bytes, count: nat, o: Options, depth: nat,
            close: Byte)
    requires whole == Before(written, Done([]))
    ensures var e := Before([open], Then(whole, Closing(count, o, depth, close)));
            && e.Done?
            && before + e.text == before + [open] + written + (if count == 0 then [] else Indent(o, depth)) + [close]
  {
    hide Indent;
    assert written + [] == written;
  }

  lemma FailsThrough(whole: Encoding, open: Byte, count: nat, o: Options, depth: nat, close: Byte)
    ensures whole.Failed? ==> Before([open], Then(whole, Closing(count, o, depth, close))) == whole
  {}

  lemma AppendItem(head: Bytes, written: Bytes, separator: Bytes, indent: Bytes, piece: Bytes)
    ensures head + written + separator + indent + piece == head + (written + (separator + indent + piece))
  {}

  lemma AppendEntry(head: Bytes, written: Bytes, separator: Bytes, indent: Bytes, key: Bytes, space: Bytes,
            piece: Bytes)
    ensures head + written + separator + indent + key + [COLON] + space + piece
         == head + (written + EntryPiece(separator, indent, key, space, piece))
  {}

  function EntryPiece(separator: Bytes, indent: Bytes, key: Bytes, space: Bytes, value: Bytes): Bytes {
    separator + indent + key + [COLON] + space + value
  }

  /** One step of the loop over the elements. */
  lemma NextItem(g: Heap, r: nat, i: nat, path: Bytes, ancestors: seq<nat>, o: Options, depth: nat, written: Bytes)
    requires Closed(g) && r in g && g[r].Elements? && i < |g[r].elements| && OnHeap(g, ancestors)
    ensures In(g, g[r].elements[i])
    ensures var e := Encoded(g, g[r].elements[i], ItemPath(path, i), ancestors, o, depth + 1);
            Before(written, EncodedItems(g, r, i, path, ancestors, o, depth)) ==
            if e.Failed? then e
            else Before(written + (Separator(i) + Indent(o, depth + 1) + e.text),
                        EncodedItems(g, r, i + 1, path, ancestors, o, depth))
  {
    assert Held(g[r])[i] == g[r].elements[i];
    hide Closed, OnHeap, Encoded, Indent, Held, Separator;
    var e := Encoded(g, g[r].elements[i], ItemPath(path, i), ancestors, o, depth + 1);
    var rest := EncodedItems(g, r, i + 1, path, ancestors, o, depth);
    if e.Done? && rest.Done? {
      var piece := Separator(i) + Indent(o, depth + 1) + e.text;
      assert written + (piece + rest.text) == written + piece + rest.text;
    }
  }

  lemma NextEntry(g: Heap, r: nat, i: nat, path: Bytes, ancestors: seq<nat>, o: Options, depth: nat, written: Bytes)
    requires Closed(g) && r in g && g[r].Entries? && i < |g[r].entries| && OnHeap(g, ancestors)
    ensures var p := g[r].entries[i];
            && In(g, p.value)
            && Before(written, EncodedEntries(g, r, i, path, ancestors, o, depth)) ==
               if !p.key.Texte? then Failed(KeyNotTexte, path)
               else
                 var e := Encoded(g, p.value, KeyPath(path, p.key.text), ancestors, o, depth + 1);
                 if e.Failed? then e
                 else Before(written + EntryPiece(Separator(i), Indent(o, depth + 1), Quoted(p.key.text), AfterColon(o), e.text),
                             EncodedEntries(g, r, i + 1, path, ancestors, o, depth))
  {
    assert Held(g[r])[i] == g[r].entries[i].value;
    hide Closed, OnHeap, Encoded, Indent, Held, Separator, Quoted, AfterColon;
    var p := g[r].entries[i];
    if p.key.Texte? {
      var e := Encoded(g, p.value, KeyPath(path, p.key.text), ancestors, o, depth + 1);
      var rest := EncodedEntries(g, r, i + 1, path, ancestors, o, depth);
      if e.Done? && rest.Done? {
        var piece := EntryPiece(Separator(i), Indent(o, depth + 1), Quoted(p.key.text), AfterColon(o), e.text);
        assert written + (piece + rest.text) == written + piece + rest.text;
      }
    }
  }

  lemma NoItemLeft(g: Heap, r: nat, path: Bytes, ancestors: seq<nat>, o: Options, depth: nat)
    requires Closed(g) && r in g && g[r].Elements? && OnHeap(g, ancestors)
    ensures EncodedItems(g, r, |g[r].elements|, path, ancestors, o, depth) == Done([])
  {}

  lemma NoEntryAfter(g: Heap, r: nat, path: Bytes, ancestors: seq<nat>, o: Options, depth: nat)
    requires Closed(g) && r in g && g[r].Entries? && OnHeap(g, ancestors)
    ensures EncodedEntries(g, r, |g[r].entries|, path, ancestors, o, depth) == Done([])
  {}

  /** The text of a value, or the cause and the place of the failure. */
  method EncodeDocument(heap: Heap, root: Value, options: Options) returns (text: Bytes, error: Option<EncodeError>)
    requires Closed(heap) && In(heap, root)
    ensures match Encoded(heap, root, [0x24], [], options, 0)
            case Done(t) => error == None && text == t
            case Failed(cause, path) => error == Some(EncodeError(cause, path))
  {
    hide Encoded, Closed;
    var encoder := new JsonEncoder(heap, options);
    error := encoder.EncodeValue(root, [0x24], 0);
    text := encoder.out;
    assert forall t: Bytes :: [] + t == t;
  }
}
