/** The text the encoder writes for a value without sharing, as a function, and the round
    trip: read back, compact or with any indentation, it is that value again.
 */
module JsonWriting {
  import opened Numerals
  import opened Utf8
  import opened JsonParsing
  import opened JsonGrammar
  import JsonCompleteness

  /** `indent` spaces a level when `pretty`. */
  datatype Options = Options(pretty: bool, indent: nat)

  // Strings

  /** A lower-case hexadecimal digit. */
  function HexDigit(n: int): Byte
    requires 0 <= n < 16
  {
    if n < 10 then 0x30 + n else 0x61 + (n - 10)
  }

  /** How one character is written: the quote, the backslash and the control characters
      are escaped. */
  function Escaped(c: int): Chr
    requires IsScalar(c)
  {
    if c == QUOTE then Short(QUOTE)
    else if c == BACKSLASH then Short(BACKSLASH)
    else if c == 0x08 then Short(0x62)
    else if c == 0x0C then Short(0x66)
    else if c == NEWLINE then Short(0x6E)
    else if c == RETURN then Short(0x72)
    else if c == TAB then Short(0x74)
    else if c < 0x20 then Unit([0x30, 0x30, HexDigit(c / 16), HexDigit(c % 16)])
    else Plain(c)
  }

  lemma EscapedMeansItself(c: int)
    requires IsScalar(c)
    ensures ChrOk(Escaped(c)) && ChrMeaning(Escaped(c)) == Encode(c)
  {
    if c < 0x20 && Escaped(c).Unit? {
      var d := Escaped(c).digits;
      assert HexValue(d[2]) == Some(c / 16) && HexValue(d[3]) == Some(c % 16);
      assert Hex4(d) == c;
    }
  }

  /** What a decoder makes of the text at an offset: the character there and where the
      next begins, or a replacement character for a byte that begins none. */
  function Next(text: Bytes, i: nat): (d: Decoded)
    requires i < |text|
    ensures i < d.next <= |text| && IsScalar(d.character)
  {
    match Decode(text, i)
    case None => Decoded(0xFFFD, i + 1)
    case Some(d) => CharIsEncoded(text[i..d.next]); d
  }

  function EscapedFrom(text: Bytes, i: nat): (chars: seq<Chr>)
    requires i <= |text|
    decreases |text| - i
  {
    if i == |text| then [] else [Escaped(Next(text, i).character)] + EscapedFrom(text, Next(text, i).next)
  }

  /** The text with every byte that is part of no character replaced by U+FFFD. */
  function RepairedFrom(text: Bytes, i: nat): Bytes
    requires i <= |text|
    decreases |text| - i
  {
    if i == |text| then [] else Encode(Next(text, i).character) + RepairedFrom(text, Next(text, i).next)
  }

  lemma {:induction false} EscapedIsRepaired(text: Bytes, i: nat)
    requires i <= |text|
    ensures CharsOk(EscapedFrom(text, i)) && CharsMeaning(EscapedFrom(text, i)) == RepairedFrom(text, i)
    decreases |text| - i
  {
    hide ChrOk, ChrMeaning, Escaped, Encode, Next;
    if i < |text| {
      var d := Next(text, i);
      EscapedMeansItself(d.character);
      EscapedIsRepaired(text, d.next);
      OneMoreEscaped(Escaped(d.character), EscapedFrom(text, d.next));
    }
  }

  lemma OneMoreEscaped(ch: Chr, rest: seq<Chr>)
    requires ChrOk(ch) && CharsOk(rest)
    ensures CharsOk([ch] + rest) && CharsText([ch] + rest) == ChrText(ch) + CharsText(rest)
    ensures CharsMeaning([ch] + rest) == ChrMeaning(ch) + CharsMeaning(rest)
  {
    hide ChrText, ChrMeaning, ChrOk;
    assert ([ch] + rest)[1..] == rest;
  }

  /** A valid text needs no repair. */
  lemma {:induction false} ValidIsRepaired(text: Bytes, i: nat)
    requires i <= |text| && Characters(text, i).Some?
    ensures RepairedFrom(text, i) == text[i..]
    decreases |text| - i
  {
    if i < |text| {
      var d := Decode(text, i).value;
      CharIsEncoded(text[i..d.next]);
      ValidIsRepaired(text, d.next);
      assert text[i..] == text[i..d.next] + text[d.next..];
    }
  }

  function Quoted(text: Bytes): Bytes {
    EscapedIsRepaired(text, 0);
    StringText(EscapedFrom(text, 0))
  }

  // Integers

  function IntText(n: int): Bytes {
    MinusText(n < 0) + Numeral(if n < 0 then -n else n)
  }

  lemma IntTextIsExact(n: int)
    ensures ToInt(IntText(n)) == n
  {
    var m := if n < 0 then -n else n;
    NumeralIsExact(m);
    if n < 0 {
      assert IntText(n)[1..] == Numeral(m);
    } else {
      assert IntText(n) == Numeral(m);
    }
  }

  // Values

  function Spaces(n: nat): Bytes {
    seq(n, _ => SPACE)
  }

  /** A new line and its indentation, or nothing. */
  function Indent(o: Options, depth: nat): Bytes {
    if o.pretty then [NEWLINE] + Spaces(o.indent * depth) else []
  }

  function AfterColon(o: Options): Bytes {
    if o.pretty then [SPACE] else []
  }

  function Written(j: Json, o: Options, depth: nat): Bytes
    decreases j, 0
  {
    match j
    case Rien => NULL_LITERAL
    case Logique(b) => if b then TRUE_LITERAL else FALSE_LITERAL
    case Entier(n) => IntText(n)
    case Decimal(token) => token
    case Texte(text) => Quoted(text)
    case Liste(items) =>
      [OPEN_BRACKET] + WrittenItems(items, o, depth)
      + (if items == [] then [] else Indent(o, depth)) + [CLOSE_BRACKET]
    case Dictionnaire(entries) =>
      [OPEN_BRACE] + WrittenEntries(entries, o, depth)
      + (if entries == [] then [] else Indent(o, depth)) + [CLOSE_BRACE]
  }

  /** Elements of a list at `depth`, a comma between them. */
  function WrittenItems(items: seq<Json>, o: Options, depth: nat): Bytes
    decreases items, 1
  {
    if items == [] then []
    else Indent(o, depth + 1) + Written(items[0], o, depth + 1)
         + (if |items| == 1 then [] else [COMMA] + WrittenItems(items[1..], o, depth))
  }

  function WrittenEntries(entries: seq<Entry>, o: Options, depth: nat): Bytes
    decreases entries, 1
  {
    if entries == [] then []
    else Indent(o, depth + 1) + Quoted(entries[0].key) + [COLON] + AfterColon(o)
         + Written(entries[0].value, o, depth + 1)
         + (if |entries| == 1 then [] else [COMMA] + WrittenEntries(entries[1..], o, depth))
  }

  /** Values the parser can give back: integers of 64 bits, valid texts, distinct keys,
      and no decimals, whose text is not part of this model. */
  predicate Clean(j: Json)
    decreases j, 0
  {
    match j
    case Rien => true
    case Logique(_) => true
    case Entier(n) => MIN_ENTIER <= n <= MAX_ENTIER
    case Decimal(_) => false
    case Texte(text) => ValidText(text)
    case Liste(items) => CleanItems(items)
    case Dictionnaire(entries) => CleanEntries(entries, {})
  }

  predicate CleanItems(items: seq<Json>)
    decreases items, 1
  {
    items == [] || (Clean(items[0]) && CleanItems(items[1..]))
  }

  predicate CleanEntries(entries: seq<Entry>, seen: set<Bytes>)
    decreases entries, 1
  {
    entries == [] ||
    (ValidText(entries[0].key) && entries[0].key !in seen && Clean(entries[0].value)
     && CleanEntries(entries[1..], seen + {entries[0].key}))
  }

  // The derivation of what is written

  function TreeOf(j: Json, o: Options, depth: nat): Tree
    requires Clean(j)
    decreases j, 0
  {
    match j
    case Rien => TNull
    case Logique(b) => TBool(b)
    case Entier(n) => TNumber(n < 0, Numeral(if n < 0 then -n else n), None, None)
    case Texte(text) => TString(EscapedFrom(text, 0))
    case Liste(items) => TArray([], ItemsOf(items, o, depth))
    case Dictionnaire(entries) => TObject([], MembersOf(entries, {}, o, depth))
  }

  function ItemsOf(items: seq<Json>, o: Options, depth: nat): seq<Item>
    requires CleanItems(items)
    decreases items, 1
  {
    if items == [] then []
    else
      [Item(Indent(o, depth + 1), TreeOf(items[0], o, depth + 1), if |items| == 1 then Indent(o, depth) else [])]
      + ItemsOf(items[1..], o, depth)
  }

  function MembersOf(entries: seq<Entry>, ghost seen: set<Bytes>, o: Options, depth: nat): seq<Member>
    requires CleanEntries(entries, seen)
    decreases entries, 1
  {
    if entries == [] then []
    else
      [Member(Indent(o, depth + 1), EscapedFrom(entries[0].key, 0), [], AfterColon(o),
              TreeOf(entries[0].value, o, depth + 1), if |entries| == 1 then Indent(o, depth) else [])]
      + MembersOf(entries[1..], seen + {entries[0].key}, o, depth)
  }

  lemma IndentIsSpace(o: Options, depth: nat)
    ensures AllSpace(Indent(o, depth)) && AllSpace(AfterColon(o)) && AllSpace([])
  {}

  lemma TextMeansItself(text: Bytes)
    requires ValidText(text)
    ensures CharsOk(EscapedFrom(text, 0)) && CharsMeaning(EscapedFrom(text, 0)) == text
  {
    EscapedIsRepaired(text, 0);
    ValidIsRepaired(text, 0);
    assert text[0..] == text;
  }

  lemma IntegerTree(n: int, finite: Bytes -> bool)
    requires MIN_ENTIER <= n <= MAX_ENTIER
    ensures var t := TNumber(n < 0, Numeral(if n < 0 then -n else n), None, None);
            JsonGrammar.Ok(t, finite) && Text(t, finite) == IntText(n) && Meaning(t, finite) == Entier(n)
  {
    hide ToInt, Numeral, AllDigits;
    NumeralIsExact(if n < 0 then -n else n);
    IntTextIsExact(n);
    var m := Numeral(if n < 0 then -n else n);
    assert NumberText(n < 0, m, None, None) == IntText(n);
  }

  /** What is written for a clean value is a text of the grammar that means the value. */
  lemma {:induction false} TreeIsWritten(j: Json, o: Options, depth: nat, finite: Bytes -> bool)
    requires Clean(j)
    ensures JsonGrammar.Ok(TreeOf(j, o, depth), finite)
    ensures Text(TreeOf(j, o, depth), finite) == Written(j, o, depth) && Meaning(TreeOf(j, o, depth), finite) == j
    decreases j, 0
  {
    hide Indent, AfterColon, Numeral, IntText, Quoted, EscapedFrom, CharsOk, CharsMeaning, StringText, AllSpace,
      ItemsOk, ItemsText, ItemsMeaning, MembersOk, MembersText, MembersMeaning, DistinctKeys, WrittenItems, WrittenEntries;
    NoSpaceIsSpace();
    match j {
      case Entier(n) => IntegerTree(n, finite);
      case Texte(text) =>
        TextMeansItself(text);
        QuotedIsString(text);
      case Liste(items) => ListIsWritten(items, o, depth, finite);
      case Dictionnaire(entries) => DictionaryIsWritten(entries, o, depth, finite);
      case _ =>
    }
  }

  lemma NoSpaceIsSpace()
    ensures AllSpace([])
  {}

  lemma QuotedIsString(text: Bytes)
    ensures CharsOk(EscapedFrom(text, 0)) && Quoted(text) == StringText(EscapedFrom(text, 0))
  {
    EscapedIsRepaired(text, 0);
  }

  lemma {:induction false} ListIsWritten(items: seq<Json>, o: Options, depth: nat, finite: Bytes -> bool)
    requires CleanItems(items)
    ensures var t := TArray([], ItemsOf(items, o, depth));
            JsonGrammar.Ok(t, finite) && Text(t, finite) == Written(Liste(items), o, depth) && Meaning(t, finite) == Liste(items)
    decreases items, 2
  {
    hide Indent, AllSpace, ItemsOk, ItemsText, ItemsMeaning;
    NoSpaceIsSpace();
    ItemsAreWritten(items, o, depth, finite);
    if items != [] {
      assert [OPEN_BRACKET] + (WrittenItems(items, o, depth) + Indent(o, depth)) + [CLOSE_BRACKET]
          == [OPEN_BRACKET] + WrittenItems(items, o, depth) + Indent(o, depth) + [CLOSE_BRACKET];
    }
  }

  lemma {:induction false} DictionaryIsWritten(entries: seq<Entry>, o: Options, depth: nat, finite: Bytes -> bool)
    requires CleanEntries(entries, {})
    ensures var t := TObject([], MembersOf(entries, {}, o, depth));
            && JsonGrammar.Ok(t, finite) && Text(t, finite) == Written(Dictionnaire(entries), o, depth)
            && Meaning(t, finite) == Dictionnaire(entries)
    decreases entries, 2
  {
    hide Indent, AllSpace, MembersOk, MembersText, MembersMeaning, DistinctKeys, MembersOf, WrittenEntries, CleanEntries;
    NoSpaceIsSpace();
    MembersAreWritten(entries, {}, o, depth, finite);
    InBraces(WrittenEntries(entries, o, depth), Indent(o, depth));
    if entries == [] {
      NothingWritten(o, depth);
    }
  }

  lemma InBraces(members: Bytes, end: Bytes)
    ensures [OPEN_BRACE] + (members + end) + [CLOSE_BRACE] == [OPEN_BRACE] + members + end + [CLOSE_BRACE]
  {}

  lemma NothingWritten(o: Options, depth: nat)
    ensures WrittenEntries([], o, depth) == []
  {}

  lemma ItemsStep(items: seq<Json>, o: Options, depth: nat)
    requires items != [] && CleanItems(items)
    ensures Clean(items[0]) && CleanItems(items[1..]) && (|items| == 1 ==> items[1..] == [])
    ensures ItemsOf(items, o, depth) ==
            [Item(Indent(o, depth + 1), TreeOf(items[0], o, depth + 1), if |items| == 1 then Indent(o, depth) else [])]
            + ItemsOf(items[1..], o, depth)
    ensures WrittenItems(items, o, depth) ==
            Indent(o, depth + 1) + Written(items[0], o, depth + 1)
            + (if |items| == 1 then [] else [COMMA] + WrittenItems(items[1..], o, depth))
  {
    hide Indent, Written, TreeOf, Clean;
  }

  lemma ItemTextIs(before: Bytes, value: Bytes, last: Bytes, rest: Bytes, end: Bytes, single: bool)
    requires last == if single then end else []
    ensures single ==> (before + value + last + [] == before + value + [] + end)
    ensures !single ==> (before + value + last + ([COMMA] + (rest + end)) == before + value + ([COMMA] + rest) + end)
  {
    if !single {
      assert before + value + ([COMMA] + (rest + end)) == before + value + ([COMMA] + rest) + end;
    }
  }

  lemma {:induction false} ItemsAreWritten(items: seq<Json>, o: Options, depth: nat, finite: Bytes -> bool)
    requires CleanItems(items)
    ensures var s := ItemsOf(items, o, depth);
            && ItemsOk(s, finite) && ItemsMeaning(s, finite) == items && (s == [] <==> items == [])
            && ItemsText(s, finite) == WrittenItems(items, o, depth) + (if items == [] then [] else Indent(o, depth))
    decreases items, 1
  {
    if items != [] {
      hide Indent, Written, Text, Meaning, JsonGrammar.Ok, AllSpace, TreeOf, Clean, ItemsOk, ItemsText, ItemsMeaning,
        ItemsOf, WrittenItems, CleanItems;
      ItemsStep(items, o, depth);
      IndentIsSpace(o, depth);
      IndentIsSpace(o, depth + 1);
      TreeIsWritten(items[0], o, depth + 1, finite);
      ItemsAreWritten(items[1..], o, depth, finite);
      var last := if |items| == 1 then Indent(o, depth) else [];
      OneMoreItem(Item(Indent(o, depth + 1), TreeOf(items[0], o, depth + 1), last), ItemsOf(items[1..], o, depth), finite);
      assert [items[0]] + items[1..] == items;
      ItemTextIs(Indent(o, depth + 1), Written(items[0], o, depth + 1), last,
                 WrittenItems(items[1..], o, depth), Indent(o, depth), |items| == 1);
    }
  }

  lemma MembersStep(entries: seq<Entry>, seen: set<Bytes>, o: Options, depth: nat)
    requires entries != [] && CleanEntries(entries, seen)
    ensures var e := entries[0];
            && ValidText(e.key) && e.key !in seen && Clean(e.value) && CleanEntries(entries[1..], seen + {e.key})
            && (|entries| == 1 ==> entries[1..] == [])
            && MembersOf(entries, seen, o, depth) ==
               [Member(Indent(o, depth + 1), EscapedFrom(e.key, 0), [], AfterColon(o), TreeOf(e.value, o, depth + 1),
                       if |entries| == 1 then Indent(o, depth) else [])]
               + MembersOf(entries[1..], seen + {e.key}, o, depth)
            && WrittenEntries(entries, o, depth) ==
               Indent(o, depth + 1) + Quoted(e.key) + [COLON] + AfterColon(o) + Written(e.value, o, depth + 1)
               + (if |entries| == 1 then [] else [COMMA] + WrittenEntries(entries[1..], o, depth))
  {
    hide Indent, Written, TreeOf, Clean, AfterColon, EscapedFrom, Quoted, ValidText;
  }

  lemma MemberTextIs(before: Bytes, key: Bytes, space: Bytes, value: Bytes, last: Bytes, rest: Bytes, end: Bytes,
            single: bool)
    requires last == if single then end else []
    ensures var front := before + key + [COLON] + space + value;
            && (single ==> (before + key + [] + [COLON] + space + value + last + [] == front + [] + end))
            && (!single ==> (before + key + [] + [COLON] + space + value + last + ([COMMA] + (rest + end))
                             == front + ([COMMA] + rest) + end))
  {
    assert before + key + [] == before + key;
    var front := before + key + [COLON] + space + value;
    assert front + [] == front;
    if !single {
      assert front + ([COMMA] + (rest + end)) == front + ([COMMA] + rest) + end;
    }
  }

  lemma {:induction false} MembersAreWritten(entries: seq<Entry>, seen: set<Bytes>, o: Options, depth: nat,
                                             finite: Bytes -> bool)
    requires CleanEntries(entries, seen)
    ensures var s := MembersOf(entries, seen, o, depth);
            && MembersOk(s, finite) && MembersMeaning(s, finite) == entries && DistinctKeys(s, seen)
            && (s == [] <==> entries == [])
            && MembersText(s, finite) ==
               WrittenEntries(entries, o, depth) + (if entries == [] then [] else Indent(o, depth))
    decreases entries, 1
  {
    if entries != [] {
      hide Indent, Written, Text, Meaning, JsonGrammar.Ok, AllSpace, TreeOf, Clean, AfterColon, Quoted, EscapedFrom,
        CharsOk, CharsMeaning, StringText, ValidText, MembersOk, MembersText, MembersMeaning, DistinctKeys, MembersOf,
        WrittenEntries, CleanEntries;
      MembersStep(entries, seen, o, depth);
      var e, last := entries[0], if |entries| == 1 then Indent(o, depth) else [];
      IndentIsSpace(o, depth);
      IndentIsSpace(o, depth + 1);
      TextMeansItself(e.key);
      QuotedIsString(e.key);
      TreeIsWritten(e.value, o, depth + 1, finite);
      MembersAreWritten(entries[1..], seen + {e.key}, o, depth, finite);
      var m := Member(Indent(o, depth + 1), EscapedFrom(e.key, 0), [], AfterColon(o), TreeOf(e.value, o, depth + 1), last);
      OneMoreMember(m, MembersOf(entries[1..], seen + {e.key}, o, depth), finite, seen);
      assert [e] + entries[1..] == entries;
      MemberTextIs(Indent(o, depth + 1), Quoted(e.key), AfterColon(o), Written(e.value, o, depth + 1), last,
                   WrittenEntries(entries[1..], o, depth), Indent(o, depth), |entries| == 1);
    }
  }

  /** The round trip: what is written is read back as the same value, with its entries in
      the same order. */
  lemma RoundTrip(j: Json, o: Options, finite: Bytes -> bool)
    requires Clean(j)
    ensures Document(Written(j, o, 0), finite) == Result.Ok(j, |Written(j, o, 0)|)
  {
    hide Written, Document, Text, JsonGrammar.Ok, Meaning;
    var t := TreeOf(j, o, 0);
    TreeIsWritten(j, o, 0, finite);
    assert [] + Text(t, finite) + [] == Text(t, finite);
    JsonCompleteness.DocumentIsRead(Written(j, o, 0), [], t, [], finite);
  }
}
