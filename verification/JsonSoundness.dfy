/** Whatever the parser takes is a text of the grammar, taken for what it means; with
    completeness, the parser takes exactly the texts of RFC 8259 that it promises to.
 */
module JsonSoundness {
  import opened Numerals
  import opened Utf8
  import opened JsonParsing
  import opened JsonGrammar
  import opened JsonCompleteness
  import opened Subsequences

  /** From `pos` to `end` stands `s`. */
  ghost predicate Spans(text: Bytes, pos: nat, end: nat, s: Bytes) {
    At(text, pos, s) && end == pos + |s|
  }

  lemma Slice(text: Bytes, pos: nat, end: nat)
    requires pos <= end <= |text|
    ensures Spans(text, pos, end, text[pos..end])
  {}

  lemma Join(text: Bytes, pos: nat, mid: nat, end: nat, a: Bytes, b: Bytes)
    requires Spans(text, pos, mid, a) && Spans(text, mid, end, b)
    ensures Spans(text, pos, end, a + b)
  {
    AtSplit(text, pos, a, b);
  }

  lemma OneByte(text: Bytes, pos: nat)
    requires pos < |text|
    ensures Spans(text, pos, pos + 1, [text[pos]])
  {
    AtByte(text, pos, text[pos]);
  }

  lemma Nothing(text: Bytes, pos: nat)
    requires pos <= |text|
    ensures Spans(text, pos, pos, [])
  {}

  /** A character that decodes is the encoding of a scalar. */
  lemma CharBack(text: Bytes, pos: nat)
    requires pos < |text| && Peek(text, pos).Ok?
    ensures IsScalar(Peek(text, pos).value)
    ensures Advance(text, pos).Ok? && Advance(text, pos).value == Peek(text, pos).value
    ensures Spans(text, pos, Advance(text, pos).at, Encode(Peek(text, pos).value))
  {
    CharIsEncoded(text[pos..Advance(text, pos).at]);
  }

  lemma AsciiBack(text: Bytes, pos: nat)
    requires pos < |text| && Advance(text, pos).Ok? && Advance(text, pos).value <= 0x7F
    ensures text[pos] == Advance(text, pos).value && Advance(text, pos).at == pos + 1
    ensures Peek(text, pos) == Result.Ok(Advance(text, pos).value, pos)
  {
    CharBack(text, pos);
    AtIndex(text, pos, Encode(Peek(text, pos).value), 0);
  }

  lemma {:induction false} SpaceBack(text: Bytes, pos: nat) returns (pad: Bytes)
    requires pos <= |text| && SkipSpace(text, pos).Ok?
    ensures AllSpace(pad) && Spans(text, pos, SkipSpace(text, pos).at, pad)
    decreases |text| - pos
  {
    hide Peek, Advance;
    pad := [];
    if pos < |text| && IsSpace(Peek(text, pos).value) {
      PeekAdvance(text, pos);
      AsciiBack(text, pos);
      var rest := SpaceBack(text, pos + 1);
      pad := [text[pos]] + rest;
      OneByte(text, pos);
      Join(text, pos, pos + 1, SkipSpace(text, pos).at, [text[pos]], rest);
    }
  }

  lemma PeekAdvance(text: Bytes, pos: nat)
    requires pos < |text| && Peek(text, pos).Ok?
    ensures Advance(text, pos).Ok? && Advance(text, pos).value == Peek(text, pos).value
  {}

  lemma {:induction false} LiteralBack(text: Bytes, pos: nat, s: Bytes)
    requires pos <= |text| && Literal(text, pos, s).Ok? && forall k | 0 <= k < |s| :: s[k] <= 0x7F
    ensures Spans(text, pos, Literal(text, pos, s).at, s)
    decreases |s|
  {
    hide Advance;
    if s != [] {
      AsciiBack(text, pos);
      LiteralBack(text, pos + 1, s[1..]);
      OneByte(text, pos);
      Join(text, pos, pos + 1, Literal(text, pos, s).at, [text[pos]], s[1..]);
      assert [text[pos]] + s[1..] == s;
    }
  }

  // Strings

  lemma HexDigitBack(text: Bytes, pos: nat, k: nat, high: nat)
    requires 0 < k && pos <= |text| && Hex(text, pos, k, high).Ok?
    ensures pos < |text| && HexValue(text[pos]).Some?
    ensures Hex(text, pos, k, high) == Hex(text, pos + 1, k - 1, high * 16 + HexValue(text[pos]).value)
  {
    hide Advance;
    AsciiBack(text, pos);
  }

  lemma HexBack(text: Bytes, pos: nat) returns (s: Bytes)
    requires pos <= |text| && Hex(text, pos, 4, 0).Ok?
    ensures IsHex4(s) && Spans(text, pos, Hex(text, pos, 4, 0).at, s) && Hex(text, pos, 4, 0).value == Hex4(s)
  {
    hide Hex;
    HexDigitBack(text, pos, 4, 0);
    var d0 := HexValue(text[pos]).value;
    HexDigitBack(text, pos + 1, 3, d0);
    var d1 := HexValue(text[pos + 1]).value;
    HexDigitBack(text, pos + 2, 2, d0 * 16 + d1);
    var d2 := HexValue(text[pos + 2]).value;
    HexDigitBack(text, pos + 3, 1, (d0 * 16 + d1) * 16 + d2);
    var d3 := HexValue(text[pos + 3]).value;
    NoMoreHex(text, pos + 4, ((d0 * 16 + d1) * 16 + d2) * 16 + d3);
    s := text[pos..pos + 4];
    Slice(text, pos, pos + 4);
  }

  /** What follows \u is one unit or a pair. */
  lemma UnicodeBack(text: Bytes, pos: nat) returns (ch: Chr)
    requires 2 <= pos <= |text| && Unicode(text, pos).Ok?
    requires text[pos - 2] == BACKSLASH && text[pos - 1] == 0x75
    ensures IsScalar(Unicode(text, pos).value)
    ensures ChrOk(ch) && ChrMeaning(ch) == Encode(Unicode(text, pos).value)
    ensures Spans(text, pos - 2, Unicode(text, pos).at, ChrText(ch))
  {
    hide Hex, HexValue, Encode, Hex4, Spans;
    UnicodeIsScalar(text, pos);
    var h := HexBack(text, pos);
    EscapeBack(text, pos - 2);
    var mid := Hex(text, pos, 4, 0).at;
    Join(text, pos - 2, pos, mid, [BACKSLASH, 0x75], h);
    if 0xD800 <= Hex4(h) <= 0xDBFF {
      var l := HexBack(text, mid + 2);
      EscapeBack(text, mid);
      Join(text, pos - 2, mid, mid + 2, [BACKSLASH, 0x75] + h, [BACKSLASH, 0x75]);
      Join(text, pos - 2, mid + 2, Unicode(text, pos).at, [BACKSLASH, 0x75] + h + [BACKSLASH, 0x75], l);
      ch := Pair(h, l);
    } else {
      ch := Unit(h);
    }
  }

  lemma EscapeBack(text: Bytes, pos: nat)
    requires pos + 1 < |text| && text[pos] == BACKSLASH && text[pos + 1] == 0x75
    ensures Spans(text, pos, pos + 2, [BACKSLASH, 0x75])
  {
    OneByte(text, pos);
    OneByte(text, pos + 1);
    Join(text, pos, pos + 1, pos + 2, [BACKSLASH], [0x75]);
  }

  /** The first character of a string that is read. */
  lemma ChrBack(text: Bytes, pos: nat, out: Bytes) returns (ch: Chr, next: nat)
    requires pos < |text| && StringBody(text, pos, out).Ok? && Peek(text, pos).value != QUOTE
    ensures pos < next <= |text| && ChrOk(ch) && Spans(text, pos, next, ChrText(ch))
    ensures StringBody(text, pos, out) == StringBody(text, next, out + ChrMeaning(ch))
  {
    hide Peek, Advance, Unicode, Unescaped, Encode, Hex4, IsHex4, Spans, IsScalar;
    var c := Peek(text, pos).value;
    PeekAdvance(text, pos);
    next := Advance(text, pos).at;
    if c == BACKSLASH {
      AsciiBack(text, pos);
      EscapedIsAscii(text, pos, out);
      if text[pos + 1] == 0x75 {
        ch := UnicodeBack(text, pos + 2);
        next := Unicode(text, pos + 2).at;
        UnicodeStep(text, pos, out);
      } else {
        ch := Short(text[pos + 1]);
        next := pos + 2;
        ShortStep(text, pos, out);
        OneByte(text, pos);
        OneByte(text, pos + 1);
        Join(text, pos, pos + 1, pos + 2, [BACKSLASH], [text[pos + 1]]);
        assert [BACKSLASH] + [text[pos + 1]] == ChrText(ch);
      }
    } else {
      CharBack(text, pos);
      ch := Plain(c);
      PlainStep(text, pos, out, c, next);
      SpansSlice(text, pos, next, Encode(c));
    }
  }

  lemma SpansSlice(text: Bytes, pos: nat, end: nat, s: Bytes)
    requires Spans(text, pos, end, s)
    ensures pos <= end <= |text| && text[pos..end] == s
  {}

  lemma EscapedIsAscii(text: Bytes, pos: nat, out: Bytes)
    requires pos < |text| && text[pos] == BACKSLASH && StringBody(text, pos, out).Ok?
    ensures pos + 1 < |text| && (Unescaped(text[pos + 1]).Some? || text[pos + 1] == 0x75)
    ensures text[pos + 1] == 0x75 ==> Unicode(text, pos + 2).Ok?
  {
    Ascii(text, pos);
    hide Advance, Peek, Unicode, Encode;
    AsciiBack(text, pos + 1);
  }

  lemma {:induction false} StringBodyBack(text: Bytes, pos: nat, out: Bytes) returns (chars: seq<Chr>)
    requires pos <= |text| && StringBody(text, pos, out).Ok?
    ensures CharsOk(chars) && StringBody(text, pos, out).value == out + CharsMeaning(chars)
    ensures Spans(text, pos, StringBody(text, pos, out).at, CharsText(chars) + [QUOTE])
    decreases |text| - pos
  {
    hide Peek, Advance, Unicode, Unescaped, Encode, Spans, ChrText, ChrMeaning, ChrOk;
    BodyGoesOn(text, pos, out);
    if Peek(text, pos).value == QUOTE {
      chars := [];
      PeekAdvance(text, pos);
      AsciiBack(text, pos);
      OneByte(text, pos);
      QuoteStep(text, pos, out);
      assert CharsText(chars) + [QUOTE] == [QUOTE] && out + [] == out;
    } else {
      var ch, next := ChrBack(text, pos, out);
      var rest := StringBodyBack(text, next, out + ChrMeaning(ch));
      chars := [ch] + rest;
      OneMoreChr(ch, rest);
      Join(text, pos, next, StringBody(text, pos, out).at, ChrText(ch), CharsText(rest) + [QUOTE]);
      assert ChrText(ch) + (CharsText(rest) + [QUOTE]) == CharsText(chars) + [QUOTE];
      assert out + ChrMeaning(ch) + CharsMeaning(rest) == out + CharsMeaning(chars);
    }
  }

  lemma BodyGoesOn(text: Bytes, pos: nat, out: Bytes)
    requires pos <= |text| && StringBody(text, pos, out).Ok?
    ensures pos < |text| && Peek(text, pos).Ok?
  {
    hide Peek, Advance, Unicode, Unescaped, Encode;
  }

  lemma OneMoreChr(ch: Chr, rest: seq<Chr>)
    requires ChrOk(ch) && CharsOk(rest)
    ensures CharsOk([ch] + rest) && CharsText([ch] + rest) == ChrText(ch) + CharsText(rest)
    ensures CharsMeaning([ch] + rest) == ChrMeaning(ch) + CharsMeaning(rest)
  {
    hide ChrText, ChrMeaning, ChrOk;
    assert ([ch] + rest)[1..] == rest;
  }

  lemma StringBack(text: Bytes, pos: nat) returns (chars: seq<Chr>)
    requires pos <= |text| && String(text, pos).Ok?
    ensures CharsOk(chars) && String(text, pos).value == CharsMeaning(chars)
    ensures Spans(text, pos, String(text, pos).at, StringText(chars))
  {
    hide StringBody, Spans, CharsText, CharsMeaning, CharsOk;
    chars := StringBodyBack(text, pos + 1, []);
    OneByte(text, pos);
    Join(text, pos, pos + 1, String(text, pos).at, [QUOTE], CharsText(chars) + [QUOTE]);
    assert [QUOTE] + (CharsText(chars) + [QUOTE]) == StringText(chars);
    assert [] + CharsMeaning(chars) == CharsMeaning(chars);
  }

  // Numbers

  lemma SeenBack(text: Bytes, pos: nat, a: Byte, b: Byte)
    requires pos <= |text| && a <= 0x7F && b <= 0x7F && Sees(text, pos, a, b) == Result.Ok(true, pos)
    ensures pos < |text| && (text[pos] == a || text[pos] == b) && Advance(text, pos).at == pos + 1
  {
    hide Peek, Advance;
    PeekAdvance(text, pos);
    AsciiBack(text, pos);
  }

  lemma {:induction false} DigitsBack(text: Bytes, pos: nat)
    requires pos <= |text| && Digits(text, pos).Ok?
    ensures AllDigits(text[pos..Digits(text, pos).at])
    decreases |text| - pos
  {
    hide Peek, Advance;
    if pos < |text| && IsDigit(Peek(text, pos).value) {
      PeekAdvance(text, pos);
      AsciiBack(text, pos);
      DigitsBack(text, pos + 1);
      var end := Digits(text, pos).at;
      assert text[pos..end] == [text[pos]] + text[pos + 1..end];
    }
  }

  lemma SomeDigitsBack(text: Bytes, pos: nat, cause: Cause)
    requires pos <= |text| && SomeDigits(text, pos, cause).Ok?
    ensures pos < SomeDigits(text, pos, cause).at && AllDigits(text[pos..SomeDigits(text, pos, cause).at])
  {
    hide Peek, Advance, AllDigits;
    DigitsBack(text, pos);
    PeekAdvance(text, pos);
    assert Digits(text, pos).at == Digits(text, Advance(text, pos).at).at;
  }

  lemma IntegerBack(text: Bytes, pos: nat)
    requires pos <= |text| && IntegerPart(text, pos).Ok?
    ensures var i := text[pos..IntegerPart(text, pos).at];
            i != [] && AllDigits(i) && (i[0] == ZERO ==> |i| == 1)
  {
    hide Peek, Advance, Digits;
    PeekAdvance(text, pos);
    AsciiBack(text, pos);
    if text[pos] != ZERO {
      DigitsBack(text, pos);
      DigitsGoOn(text, pos);
    }
  }

  lemma DigitsGoOn(text: Bytes, pos: nat)
    requires pos < |text| && IsDigit(text[pos]) && Digits(text, pos).Ok?
    ensures pos < Digits(text, pos).at
  {
    Ascii(text, pos);
  }

  lemma FractionBack(text: Bytes, pos: nat) returns (f: Option<Bytes>)
    requires pos <= |text| && Fraction(text, pos).Ok?
    ensures f.Some? == Fraction(text, pos).value && (f.Some? ==> f.value != [] && AllDigits(f.value))
    ensures Spans(text, pos, Fraction(text, pos).at, FractionText(f))
  {
    hide Sees, Advance, SomeDigits, AllDigits, Spans;
    f := None;
    if Fraction(text, pos).value {
      var end := Fraction(text, pos).at;
      SeenBack(text, pos, DOT, DOT);
      SomeDigitsBack(text, pos + 1, FractionExpected);
      f := Some(text[pos + 1..end]);
      OneByte(text, pos);
      Slice(text, pos + 1, end);
      Join(text, pos, pos + 1, end, [DOT], f.value);
    } else {
      Nothing(text, pos);
    }
  }

  lemma SignBack(text: Bytes, pos: nat) returns (sign: Bytes)
    requires pos <= |text| && Sees(text, pos, PLUS, MINUS).Ok?
    ensures sign == [] || sign == [PLUS] || sign == [MINUS]
    ensures Spans(text, pos, if Sees(text, pos, PLUS, MINUS).value then Advance(text, pos).at else pos, sign)
  {
    hide Sees, Advance, Spans;
    sign := [];
    if Sees(text, pos, PLUS, MINUS).value {
      SeenBack(text, pos, PLUS, MINUS);
      sign := [text[pos]];
      OneByte(text, pos);
    } else {
      Nothing(text, pos);
    }
  }

  lemma ExponentBack(text: Bytes, pos: nat) returns (p: Option<Power>)
    requires pos <= |text| && Exponent(text, pos).Ok?
    ensures p.Some? == Exponent(text, pos).value && (p.Some? ==> PowerOk(p.value))
    ensures Spans(text, pos, Exponent(text, pos).at, PowerText(p))
  {
    hide Sees, Advance, SomeDigits, AllDigits, Spans;
    p := None;
    if Exponent(text, pos).value {
      var end := Exponent(text, pos).at;
      SeenBack(text, pos, 0x65, 0x45);
      var sign := SignBack(text, pos + 1);
      var start := if Sees(text, pos + 1, PLUS, MINUS).value then Advance(text, pos + 1).at else pos + 1;
      SomeDigitsBack(text, start, ExponentExpected);
      var digits := text[start..end];
      p := Some(Power(text[pos], sign, digits));
      OneByte(text, pos);
      Slice(text, start, end);
      Join(text, pos, pos + 1, start, [text[pos]], sign);
      Join(text, pos, start, end, [text[pos]] + sign, digits);
    } else {
      Nothing(text, pos);
    }
  }

  lemma MinusBack(text: Bytes, pos: nat)
    requires pos <= |text| && Sees(text, pos, MINUS, MINUS).Ok?
    ensures var minus := Sees(text, pos, MINUS, MINUS).value;
            Spans(text, pos, if minus then Advance(text, pos).at else pos, MinusText(minus))
  {
    hide Sees, Advance, Spans;
    if Sees(text, pos, MINUS, MINUS).value {
      SeenBack(text, pos, MINUS, MINUS);
      OneByte(text, pos);
    } else {
      Nothing(text, pos);
    }
  }

  lemma NumberBack(text: Bytes, pos: nat, finite: Bytes -> bool) returns (t: Tree)
    requires pos <= |text| && Number(text, pos, finite).Ok?
    ensures JsonGrammar.Ok(t, finite) && Meaning(t, finite) == Number(text, pos, finite).value
    ensures Spans(text, pos, Number(text, pos, finite).at, Text(t, finite))
  {
    hide Sees, Advance, IntegerPart, Fraction, Exponent, AllDigits, Spans, MinusText, FractionText, PowerText, ToInt, PowerOk;
    var minus := Sees(text, pos, MINUS, MINUS).value;
    var start := if minus then Advance(text, pos).at else pos;
    MinusBack(text, pos);
    IntegerBack(text, start);
    var i := IntegerPart(text, start).at;
    var integer := text[start..i];
    Slice(text, start, i);
    var fraction := FractionBack(text, i);
    var f := Fraction(text, i).at;
    var power := ExponentBack(text, f);
    var end := Exponent(text, f).at;
    Join(text, pos, start, i, MinusText(minus), integer);
    Join(text, pos, i, f, MinusText(minus) + integer, FractionText(fraction));
    Join(text, pos, f, end, MinusText(minus) + integer + FractionText(fraction), PowerText(power));
    SpansSlice(text, pos, end, NumberText(minus, integer, fraction, power));
    t := TNumber(minus, integer, fraction, power);
  }

  // Values

  /** A value after white space: what was read stands there and means what was read. */
  lemma {:induction false} ValueBack(text: Bytes, pos: nat, finite: Bytes -> bool) returns (pad: Bytes, t: Tree)
    requires pos <= |text| && Val(text, pos, finite).Ok?
    ensures AllSpace(pad) && JsonGrammar.Ok(t, finite) && Meaning(t, finite) == Val(text, pos, finite).value
    ensures Spans(text, pos, Val(text, pos, finite).at, pad + Text(t, finite))
    decreases |text| - pos, 2
  {
    hide SkipSpace, Spans, AllSpace, JsonGrammar.Ok, Meaning, Text, Val;
    pad := ValuePad(text, pos, finite);
    var p := SkipSpace(text, pos).at;
    t := BareValueBack(text, p, finite);
    Join(text, pos, p, Val(text, p, finite).at, pad, Text(t, finite));
  }

  lemma ValuePad(text: Bytes, pos: nat, finite: Bytes -> bool) returns (pad: Bytes)
    requires pos <= |text| && Val(text, pos, finite).Ok?
    ensures AllSpace(pad) && SkipSpace(text, pos).Ok?
    ensures var p := SkipSpace(text, pos).at;
            && Spans(text, pos, p, pad) && SkipSpace(text, p) == Result.Ok((), p) && p < |text| && Peek(text, p).Ok?
            && Val(text, p, finite) == Val(text, pos, finite)
  {
    hide SkipSpace, Spans, AllSpace, Obj, Arr, String, Number, Literal;
    pad := SpaceBack(text, pos);
    SkipsOnce(text, pos);
  }

  lemma {:induction false} SkipsOnce(text: Bytes, pos: nat)
    requires pos <= |text| && SkipSpace(text, pos).Ok?
    ensures SkipSpace(text, SkipSpace(text, pos).at) == Result.Ok((), SkipSpace(text, pos).at)
    decreases |text| - pos
  {
    hide Peek, Advance;
    if pos < |text| && IsSpace(Peek(text, pos).value) {
      PeekAdvance(text, pos);
      SkipsOnce(text, Advance(text, pos).at);
    }
  }

  /** A value where it starts. */
  lemma {:induction false} BareValueBack(text: Bytes, pos: nat, finite: Bytes -> bool) returns (t: Tree)
    requires pos < |text| && SkipSpace(text, pos) == Result.Ok((), pos) && Val(text, pos, finite).Ok?
    ensures JsonGrammar.Ok(t, finite) && Meaning(t, finite) == Val(text, pos, finite).value
    ensures Spans(text, pos, Val(text, pos, finite).at, Text(t, finite))
    decreases |text| - pos, 1
  {
    hide SkipSpace, Spans, AllSpace, Obj, Arr, String, Number, Literal, Peek, NumberText, CharsText, CharsMeaning, CharsOk;
    var ch := Peek(text, pos).value;
    if ch == OPEN_BRACE {
      t := ObjectBack(text, pos, finite);
    } else if ch == OPEN_BRACKET {
      t := ArrayBack(text, pos, finite);
    } else if ch == QUOTE {
      var chars := StringBack(text, pos);
      t := TString(chars);
    } else if ch == 0x74 {
      LiteralBack(text, pos, TRUE_LITERAL);
      t := TBool(true);
    } else if ch == 0x66 {
      LiteralBack(text, pos, FALSE_LITERAL);
      t := TBool(false);
    } else if ch == 0x6E {
      LiteralBack(text, pos, NULL_LITERAL);
      t := TNull;
    } else {
      t := NumberBack(text, pos, finite);
    }
  }

  /** An opening bracket, a body and a closing bracket. */
  lemma Bracketed(text: Bytes, pos: nat, mid: nat, end: nat, open: Byte, body: Bytes, close: Byte)
    requires pos < |text| && text[pos] == open && Spans(text, pos + 1, mid, body)
    requires mid < |text| && text[mid] == close && end == mid + 1
    ensures Spans(text, pos, end, [open] + body + [close])
  {
    hide Spans;
    OneByte(text, pos);
    OneByte(text, mid);
    Join(text, pos, pos + 1, mid, [open], body);
    Join(text, pos, mid, end, [open] + body, [close]);
  }

  lemma {:induction false} ArrayBack(text: Bytes, pos: nat, finite: Bytes -> bool) returns (t: Tree)
    requires pos < |text| && Arr(text, pos, finite).Ok?
    ensures JsonGrammar.Ok(t, finite) && Meaning(t, finite) == Arr(text, pos, finite).value
    ensures Spans(text, pos, Arr(text, pos, finite).at, Text(t, finite))
    decreases |text| - pos, 0
  {
    hide SkipSpace, Spans, AllSpace, Sees, Advance, Elements, ItemsOk, ItemsText, ItemsMeaning;
    var pad := SpaceBack(text, pos + 1);
    var p := SkipSpace(text, pos + 1).at;
    if Sees(text, p, CLOSE_BRACKET, CLOSE_BRACKET).value {
      SeenBack(text, p, CLOSE_BRACKET, CLOSE_BRACKET);
      Bracketed(text, pos, p, p + 1, OPEN_BRACKET, pad, CLOSE_BRACKET);
      t := TArray(pad, []);
      EmptyArrayOk(pad, finite);
    } else {
      var items, end := ElementsBack(text, p, finite, []);
      var padded := [PadItem(pad, items[0])] + items[1..];
      PadItems(pad, items, finite);
      Join(text, pos + 1, p, end, pad, ItemsText(items, finite));
      Bracketed(text, pos, end, end + 1, OPEN_BRACKET, ItemsText(padded, finite), CLOSE_BRACKET);
      t := TArray([], padded);
      assert [] + ItemsMeaning(items, finite) == ItemsMeaning(items, finite);
      NoSpaceIsSpace();
    }
  }

  lemma EmptyArrayOk(pad: Bytes, finite: Bytes -> bool)
    requires AllSpace(pad)
    ensures JsonGrammar.Ok(TArray(pad, []), finite) && Meaning(TArray(pad, []), finite) == Liste([])
  {}

  lemma NoSpaceIsSpace()
    ensures AllSpace([])
  {}

  lemma BothSpace(a: Bytes, b: Bytes)
    requires AllSpace(a) && AllSpace(b)
    ensures AllSpace(a + b)
  {}

  function PadItem(pad: Bytes, item: Item): Item {
    Item(pad + item.before, item.tree, item.after)
  }

  /** White space before the first element belongs to it. */
  lemma PadItems(pad: Bytes, items: seq<Item>, finite: Bytes -> bool)
    requires AllSpace(pad) && items != [] && ItemsOk(items, finite)
    ensures var padded := [PadItem(pad, items[0])] + items[1..];
            && ItemsOk(padded, finite) && ItemsText(padded, finite) == pad + ItemsText(items, finite)
            && ItemsMeaning(padded, finite) == ItemsMeaning(items, finite)
  {
    hide AllSpace, Text, Meaning, JsonGrammar.Ok;
    BothSpace(pad, items[0].before);
    var padded := [PadItem(pad, items[0])] + items[1..];
    assert padded[1..] == items[1..];
    var rest := if |items| == 1 then [] else [COMMA] + ItemsText(items[1..], finite);
    Regroup(pad, items[0].before, Text(items[0].tree, finite), items[0].after, rest);
  }

  lemma Regroup(pad: Bytes, a: Bytes, b: Bytes, c: Bytes, d: Bytes)
    ensures pad + a + b + c + d == pad + (a + b + c + d)
  {}

  /** What one step of `Elements` did: where the value, the space after it and what
      follows are. */
  lemma ElementBack(text: Bytes, pos: nat, finite: Bytes -> bool, done: seq<Json>)
    requires pos <= |text| && Elements(text, pos, finite, done).Ok?
    ensures SkipSpace(text, pos).Ok?
    ensures var p := SkipSpace(text, pos).at;
            var v := Val(text, p, finite);
            && v.Ok? && SkipSpace(text, v.at).Ok?
            && var r := SkipSpace(text, v.at).at;
               && r < |text| && (text[r] == COMMA || text[r] == CLOSE_BRACKET)
               && Elements(text, pos, finite, done) ==
                  if text[r] == COMMA then Elements(text, r + 1, finite, done + [v.value])
                  else Result.Ok(Liste(done + [v.value]), r + 1)
  {
    hide SkipSpace, Val, Peek, Advance;
    var p := SkipSpace(text, pos).at;
    var v := Val(text, p, finite);
    var r := SkipSpace(text, v.at).at;
    PeekAdvance(text, r);
    AsciiBack(text, r);
  }

  lemma {:induction false} ElementsBack(text: Bytes, pos: nat, finite: Bytes -> bool, done: seq<Json>)
    returns (items: seq<Item>, end: nat)
    requires pos <= |text| && Elements(text, pos, finite, done).Ok?
    ensures items != [] && ItemsOk(items, finite) && Spans(text, pos, end, ItemsText(items, finite))
    ensures end < |text| && text[end] == CLOSE_BRACKET
    ensures Elements(text, pos, finite, done) == Result.Ok(Liste(done + ItemsMeaning(items, finite)), end + 1)
    decreases |text| - pos, 3
  {
    hide SkipSpace, Spans, AllSpace, Val, Elements, JsonGrammar.Ok, Meaning, Text;
    ElementBack(text, pos, finite, done);
    var p := SkipSpace(text, pos).at;
    var v := Val(text, p, finite);
    var r := SkipSpace(text, v.at).at;
    var before := SpaceBack(text, pos);
    var pad, t := ValueBack(text, p, finite);
    var after := SpaceBack(text, v.at);
    BothSpace(before, pad);
    var item := Item(before + pad, t, after);
    JoinItem(text, pos, p, v.at, r, before, pad, Text(t, finite), after);
    hide ItemsText, ItemsMeaning, ItemsOk;
    if text[r] == COMMA {
      var rest;
      rest, end := ElementsBack(text, r + 1, finite, done + [v.value]);
      items := [item] + rest;
      OneByte(text, r);
      Join(text, r, r + 1, end, [COMMA], ItemsText(rest, finite));
      Join(text, pos, r, end, before + pad + Text(t, finite) + after, [COMMA] + ItemsText(rest, finite));
      OneItemMore(item, rest, finite, done);
    } else {
      items, end := [item] + [], r;
      OneItemMore(item, [], finite, done);
    }
  }

  lemma JoinItem(text: Bytes, pos: nat, p: nat, q: nat, r: nat, before: Bytes, pad: Bytes, value: Bytes, after: Bytes)
    requires Spans(text, pos, p, before) && Spans(text, p, q, pad + value) && Spans(text, q, r, after)
    ensures Spans(text, pos, r, before + pad + value + after)
  {
    Join(text, pos, p, q, before, pad + value);
    Join(text, pos, q, r, before + (pad + value), after);
    assert before + (pad + value) + after == before + pad + value + after;
  }

  /** An item in front of others: what is written and what it means. */
  lemma {:induction false} OneItemMore(item: Item, rest: seq<Item>, finite: Bytes -> bool, done: seq<Json>)
    requires AllSpace(item.before) && AllSpace(item.after) && JsonGrammar.Ok(item.tree, finite) && ItemsOk(rest, finite)
    ensures var items, v := [item] + rest, Meaning(item.tree, finite);
            && ItemsOk(items, finite)
            && (rest == [] ==> ItemsText(items, finite) == item.before + Text(item.tree, finite) + item.after)
            && (rest != [] ==> ItemsText(items, finite) ==
                               item.before + Text(item.tree, finite) + item.after + ([COMMA] + ItemsText(rest, finite)))
            && (rest == [] ==> done + ItemsMeaning(items, finite) == done + [v])
            && done + ItemsMeaning(items, finite) == done + [v] + ItemsMeaning(rest, finite)
  {
    hide AllSpace, Text, Meaning, JsonGrammar.Ok, ItemsOk, ItemsText, ItemsMeaning;
    OneMoreItem(item, rest, finite);
    var v, text := Meaning(item.tree, finite), item.before + Text(item.tree, finite) + item.after;
    assert text + [] == text;
    NothingMeant(finite);
    assert done + [v] + ItemsMeaning(rest, finite) == done + ([v] + ItemsMeaning(rest, finite));
  }

  lemma NothingMeant(finite: Bytes -> bool)
    ensures ItemsOk([], finite) && ItemsMeaning([], finite) == []
  {}

  // Objects

  function PadMember(pad: Bytes, m: Member): Member {
    Member(pad + m.before, m.key, m.afterKey, m.beforeValue, m.tree, m.after)
  }

  lemma PadMembers(pad: Bytes, members: seq<Member>, finite: Bytes -> bool)
    requires AllSpace(pad) && members != [] && MembersOk(members, finite) && DistinctKeys(members, {})
    ensures var padded := [PadMember(pad, members[0])] + members[1..];
            && MembersOk(padded, finite) && MembersText(padded, finite) == pad + MembersText(members, finite)
            && MembersMeaning(padded, finite) == MembersMeaning(members, finite) && DistinctKeys(padded, {})
  {
    hide AllSpace, Text, Meaning, JsonGrammar.Ok, StringText, CharsOk, CharsMeaning;
    var m := members[0];
    BothSpace(pad, m.before);
    var padded := [PadMember(pad, m)] + members[1..];
    assert padded[1..] == members[1..];
    var rest := if |members| == 1 then [] else [COMMA] + MembersText(members[1..], finite);
    MemberRegroup(pad, m.before, StringText(m.key), m.afterKey, [COLON], m.beforeValue, Text(m.tree, finite), m.after, rest);
  }

  lemma MemberRegroup(pad: Bytes, a: Bytes, b: Bytes, c: Bytes, d: Bytes, e: Bytes, f: Bytes, g: Bytes, h: Bytes)
    ensures pad + a + b + c + d + e + f + g + h == pad + (a + b + c + d + e + f + g + h)
  {}

  /** Where the parts of a member are: its key, the space after it, the colon, the value, and
      what follows. */
  datatype Places = Places(key: nat, afterKey: nat, colon: nat, value: nat, afterValue: nat, end: nat)

  /** The parser has been through these places. */
  predicate Passed(text: Bytes, pos: nat, finite: Bytes -> bool, at: Places) {
    && pos <= at.key <= at.afterKey <= at.colon < at.colon + 1 <= at.value <= at.afterValue <= at.end < |text|
    && SkipSpace(text, pos).Ok? && SkipSpace(text, pos).at == at.key
    && String(text, at.key).Ok? && String(text, at.key).at == at.afterKey
    && SkipSpace(text, at.afterKey).Ok? && SkipSpace(text, at.afterKey).at == at.colon && text[at.colon] == COLON
    && SkipSpace(text, at.colon + 1).Ok? && SkipSpace(text, at.colon + 1).at == at.value
    && Val(text, at.value, finite).Ok? && Val(text, at.value, finite).at == at.afterValue
    && SkipSpace(text, at.afterValue).Ok? && SkipSpace(text, at.afterValue).at == at.end
  }

  /** What one step of `Members` did. */
  lemma MemberBack(text: Bytes, pos: nat,
            finite: Bytes -> bool, done: seq<Entry>, seen: set<Bytes>) returns (at: Places)
    requires pos <= |text| && Members(text, pos, finite, done, seen).Ok?
    ensures Passed(text, pos, finite, at) && String(text, at.key).value !in seen
    ensures text[at.end] == COMMA || text[at.end] == CLOSE_BRACE
    ensures var e := Entry(String(text, at.key).value, Val(text, at.value, finite).value);
            Members(text, pos, finite, done, seen) ==
            if text[at.end] == COMMA then Members(text, at.end + 1, finite, done + [e], seen + {e.key})
            else Result.Ok(Dictionnaire(done + [e]), at.end + 1)
  {
    hide SkipSpace, Val, Peek, Advance, String, Sees;
    var k := SkipSpace(text, pos).at;
    var a := String(text, k).at;
    var c := SkipSpace(text, a).at;
    var p := SkipSpace(text, c + 1).at;
    var q := Val(text, p, finite).at;
    at := Places(k, a, c, p, q, SkipSpace(text, q).at);
    PeekAdvance(text, at.end);
    AsciiBack(text, at.end);
  }

  /** The parts of a member stand next to each other. */
  lemma MemberSpans(text: Bytes, pos: nat, k: nat, a: nat, c: nat, p: nat, q: nat, r: nat,
                    before: Bytes, key: Bytes, afterKey: Bytes, space: Bytes, pad: Bytes, value: Bytes, after: Bytes)
    requires Spans(text, pos, k, before) && Spans(text, k, a, key) && Spans(text, a, c, afterKey)
    requires c < |text| && text[c] == COLON && Spans(text, c + 1, p, space) && Spans(text, p, q, pad + value)
    requires Spans(text, q, r, after)
    ensures Spans(text, pos, r, before + key + afterKey + [COLON] + (space + pad) + value + after)
  {
    hide Spans;
    OneByte(text, c);
    Join(text, pos, k, a, before, key);
    Join(text, pos, a, c, before + key, afterKey);
    Join(text, pos, c, c + 1, before + key + afterKey, [COLON]);
    Join(text, c + 1, p, q, space, pad + value);
    Join(text, pos, c + 1, q, before + key + afterKey + [COLON], space + (pad + value));
    Join(text, pos, q, r, before + key + afterKey + [COLON] + (space + (pad + value)), after);
    assert before + key + afterKey + [COLON] + (space + (pad + value)) + after
        == before + key + afterKey + [COLON] + (space + pad) + value + after;
  }

  lemma {:induction false} MembersBack(text: Bytes, pos: nat, finite: Bytes -> bool, done: seq<Entry>, seen: set<Bytes>)
    returns (members: seq<Member>, end: nat)
    requires pos <= |text| && Members(text, pos, finite, done, seen).Ok?
    ensures members != [] && MembersOk(members, finite) && DistinctKeys(members, seen)
    ensures Spans(text, pos, end, MembersText(members, finite)) && end < |text| && text[end] == CLOSE_BRACE
    ensures Members(text, pos, finite, done, seen) ==
            Result.Ok(Dictionnaire(done + MembersMeaning(members, finite)), end + 1)
    decreases |text| - pos, 3
  {
    hide SkipSpace, Spans, AllSpace, Val, Members, JsonGrammar.Ok, Meaning, Text, String, StringText, MembersText,
      MembersMeaning, DistinctKeys, CharsOk, CharsMeaning, MemberOk, MemberText;
    hide Passed;
    var at := MemberBack(text, pos, finite, done, seen);
    PassedParts(text, pos, finite, at);
    var r := at.end;
    var m := PartsBack(text, pos, finite, at);
    var e := MemberMeaning(m, finite);
    if text[r] == COMMA {
      var rest;
      rest, end := MembersBack(text, r + 1, finite, done + [e], seen + {e.key});
      members := [m] + rest;
      OneMoreMember(m, rest, finite, seen);
      OneByte(text, r);
      Join(text, r, r + 1, end, [COMMA], MembersText(rest, finite));
      Join(text, pos, r, end, MemberText(m, finite), [COMMA] + MembersText(rest, finite));
      assert done + [e] + MembersMeaning(rest, finite) == done + MembersMeaning(members, finite);
    } else {
      members, end := [m], r;
      LastMember(m, finite, seen);
    }
  }

  lemma LastMember(m: Member, finite: Bytes -> bool, seen: set<Bytes>)
    requires MemberOk(m, finite) && KeyOf(m) !in seen
    ensures MembersOk([m], finite) && DistinctKeys([m], seen)
    ensures MembersMeaning([m], finite) == [MemberMeaning(m, finite)]
    ensures MembersText([m], finite) == MemberText(m, finite)
  {
    hide MemberOk, MemberText, MemberMeaning, KeyOf;
    assert [m] + [] == [m];
    OneMoreMember(m, [], finite, seen);
  }

  lemma PassedParts(text: Bytes, pos: nat, finite: Bytes -> bool, at: Places)
    requires Passed(text, pos, finite, at)
    ensures pos <= at.key <= at.value <= at.end < |text|
    ensures String(text, at.key).Ok? && Val(text, at.value, finite).Ok?
  {}

  lemma {:induction false} PartsBack(text: Bytes, pos: nat, finite: Bytes -> bool, at: Places) returns (m: Member)
    requires Passed(text, pos, finite, at)
    ensures MemberOk(m, finite) && Spans(text, pos, at.end, MemberText(m, finite))
    ensures MemberMeaning(m, finite) == Entry(String(text, at.key).value, Val(text, at.value, finite).value)
    decreases |text| - pos, 2
  {
    hide SkipSpace, Spans, AllSpace, Val, JsonGrammar.Ok, Meaning, Text, String, StringText, CharsOk, CharsMeaning;
    var before := SpaceBack(text, pos);
    var key := StringBack(text, at.key);
    var afterKey := SpaceBack(text, at.afterKey);
    var space := SpaceBack(text, at.colon + 1);
    var pad, t := ValueBack(text, at.value, finite);
    var after := SpaceBack(text, at.afterValue);
    BothSpace(space, pad);
    MemberSpans(text, pos, at.key, at.afterKey, at.colon, at.value, at.afterValue, at.end,
                before, StringText(key), afterKey, space, pad, Text(t, finite), after);
    m := Member(before, key, afterKey, space + pad, t, after);
  }

  lemma {:induction false} ObjectBack(text: Bytes, pos: nat, finite: Bytes -> bool) returns (t: Tree)
    requires pos < |text| && Obj(text, pos, finite).Ok?
    ensures JsonGrammar.Ok(t, finite) && Meaning(t, finite) == Obj(text, pos, finite).value
    ensures Spans(text, pos, Obj(text, pos, finite).at, Text(t, finite))
    decreases |text| - pos, 0
  {
    hide SkipSpace, Spans, AllSpace, Sees, Advance, Members, MembersOk, MembersText, MembersMeaning, DistinctKeys;
    var pad := SpaceBack(text, pos + 1);
    var p := SkipSpace(text, pos + 1).at;
    if Sees(text, p, CLOSE_BRACE, CLOSE_BRACE).value {
      SeenBack(text, p, CLOSE_BRACE, CLOSE_BRACE);
      Bracketed(text, pos, p, p + 1, OPEN_BRACE, pad, CLOSE_BRACE);
      t := TObject(pad, []);
      EmptyObjectOk(pad, finite);
    } else {
      var members, end := MembersBack(text, p, finite, [], {});
      var padded := [PadMember(pad, members[0])] + members[1..];
      PadMembers(pad, members, finite);
      Join(text, pos + 1, p, end, pad, MembersText(members, finite));
      Bracketed(text, pos, end, end + 1, OPEN_BRACE, MembersText(padded, finite), CLOSE_BRACE);
      t := TObject([], padded);
      assert [] + MembersMeaning(members, finite) == MembersMeaning(members, finite);
      NoSpaceIsSpace();
    }
  }

  lemma EmptyObjectOk(pad: Bytes, finite: Bytes -> bool)
    requires AllSpace(pad)
    ensures JsonGrammar.Ok(TObject(pad, []), finite) && Meaning(TObject(pad, []), finite) == Dictionnaire([])
  {}

  // Documents

  /** What the parser takes is a text of the grammar that means what was read. */
  lemma DocumentBack(text: Bytes, finite: Bytes -> bool) returns (lead: Bytes, t: Tree, trail: Bytes)
    requires Document(text, finite).Ok?
    ensures Denotes(text, lead, t, trail, finite) && Meaning(t, finite) == Document(text, finite).value
  {
    hide SkipSpace, Spans, AllSpace, Val, JsonGrammar.Ok, Meaning, Text;
    var p := SkipSpace(text, 0).at;
    var space := SpaceBack(text, 0);
    var pad;
    pad, t := ValueBack(text, p, finite);
    var q := Val(text, p, finite).at;
    trail := SpaceBack(text, q);
    lead := space + pad;
    BothSpace(space, pad);
    Join(text, 0, p, q, space, pad + Text(t, finite));
    Join(text, 0, q, |text|, space + (pad + Text(t, finite)), trail);
    SpansSlice(text, 0, |text|, space + (pad + Text(t, finite)) + trail);
    assert text[0..|text|] == text;
    assert space + (pad + Text(t, finite)) + trail == lead + Text(t, finite) + trail;
  }

  /** The parser takes exactly the texts of the grammar, and two derivations of one text
      mean the same. */
  lemma DocumentIsExact(text: Bytes, finite: Bytes -> bool)
    ensures Document(text, finite).Ok? <==> exists lead, t, trail :: Denotes(text, lead, t, trail, finite)
    ensures forall lead, t, trail | Denotes(text, lead, t, trail, finite) ::
              Meaning(t, finite) == Document(text, finite).value
  {
    hide Document, Text, JsonGrammar.Ok, Meaning, AllSpace;
    if Document(text, finite).Ok? {
      var lead, t, trail := DocumentBack(text, finite);
    }
    forall lead, t, trail | Denotes(text, lead, t, trail, finite)
      ensures Document(text, finite) == Result.Ok(Meaning(t, finite), |text|)
    {
      DocumentIsRead(text, lead, t, trail, finite);
    }
  }
}
