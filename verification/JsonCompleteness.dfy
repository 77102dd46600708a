/** The parser finds every text of the grammar, and what it means. */
module JsonCompleteness {
  import opened Numerals
  import opened Utf8
  import opened JsonParsing
  import opened JsonGrammar
  import opened Subsequences

  /** A single-byte character is seen and consumed. */
  lemma Ascii(text: Bytes, pos: nat)
    requires pos < |text| && text[pos] <= 0x7F
    ensures Peek(text, pos) == Result.Ok(text[pos], pos) && Advance(text, pos) == Result.Ok(text[pos], pos + 1)
  {
    assert text[pos..pos + 1] == [text[pos]];
  }

  /** What stands at `pos` does not continue white space: the end, or a single byte
      that is not white space. */
  predicate EndsSpace(text: Bytes, pos: nat) {
    pos == |text| || (pos < |text| && text[pos] <= 0x7F && !IsSpace(text[pos]))
  }

  lemma {:induction false} SpaceIsSkipped(text: Bytes, pos: nat, pad: Bytes)
    requires At(text, pos, pad) && AllSpace(pad) && EndsSpace(text, pos + |pad|)
    ensures SkipSpace(text, pos) == Result.Ok((), pos + |pad|)
    decreases |pad|
  {
    if pad == [] {
      if pos < |text| {
        Ascii(text, pos);
      }
    } else {
      AtHead(text, pos, pad);
      Ascii(text, pos);
      SpaceIsSkipped(text, pos + 1, pad[1..]);
    }
  }

  lemma {:induction false} LiteralIsRead(text: Bytes, pos: nat, s: Bytes)
    requires At(text, pos, s) && forall k | 0 <= k < |s| :: s[k] <= 0x7F
    ensures Literal(text, pos, s) == Result.Ok((), pos + |s|)
    decreases |s|
  {
    if s != [] {
      AtHead(text, pos, s);
      Ascii(text, pos);
      LiteralIsRead(text, pos + 1, s[1..]);
    }
  }

  // Strings

  lemma {:induction false} HexDigitIsRead(text: Bytes, pos: nat, k: nat, high: nat)
    requires 0 < k && pos < |text| && HexValue(text[pos]).Some?
    ensures Hex(text, pos, k, high) == Hex(text, pos + 1, k - 1, high * 16 + HexValue(text[pos]).value)
  {
    Ascii(text, pos);
  }

  lemma HexIsRead(text: Bytes, pos: nat, s: Bytes)
    requires At(text, pos, s) && IsHex4(s)
    ensures Hex(text, pos, 4, 0) == Result.Ok(Hex4(s), pos + 4)
  {
    hide HexValue, Hex, Hex4;
    AtIndex(text, pos, s, 0);
    AtIndex(text, pos, s, 1);
    AtIndex(text, pos, s, 2);
    AtIndex(text, pos, s, 3);
    HexOfFour(text, pos, s[0], s[1], s[2], s[3]);
    Hex4Of(s);
  }

  lemma HexOfFour(text: Bytes, pos: nat, a: Byte, b: Byte, c: Byte, d: Byte)
    requires pos + 4 <= |text| && text[pos] == a && text[pos + 1] == b && text[pos + 2] == c && text[pos + 3] == d
    requires HexValue(a).Some? && HexValue(b).Some? && HexValue(c).Some? && HexValue(d).Some?
    ensures Hex(text, pos, 4, 0) == Result.Ok(Hex4([a, b, c, d]), pos + 4)
  {
    hide Hex;
    HexDigitIsRead(text, pos, 4, 0);
    HexDigitIsRead(text, pos + 1, 3, HexValue(a).value);
    HexDigitIsRead(text, pos + 2, 2, HexValue(a).value * 16 + HexValue(b).value);
    HexDigitIsRead(text, pos + 3, 1, (HexValue(a).value * 16 + HexValue(b).value) * 16 + HexValue(c).value);
    NoMoreHex(text, pos + 4, Hex4([a, b, c, d]));
  }

  lemma NoMoreHex(text: Bytes, pos: nat, high: nat)
    requires pos <= |text|
    ensures Hex(text, pos, 0, high) == Result.Ok(high, pos)
  {}

  lemma Hex4Of(s: Bytes)
    requires IsHex4(s)
    ensures s == [s[0], s[1], s[2], s[3]]
  {}

  lemma PairIsScalar(h: Bytes, l: Bytes)
    requires ChrOk(Pair(h, l))
    ensures IsScalar(0x10000 + (Hex4(h) - 0xD800) * 1024 + (Hex4(l) - 0xDC00))
  {}

  lemma UnitIsRead(text: Bytes, pos: nat, d: Bytes)
    requires At(text, pos, d) && ChrOk(Unit(d))
    ensures Unicode(text, pos) == Result.Ok(Hex4(d), pos + 4)
  {
    hide Hex;
    HexIsRead(text, pos, d);
  }

  lemma PairIsRead(text: Bytes, pos: nat, h: Bytes, l: Bytes)
    requires ChrOk(Pair(h, l)) && At(text, pos, h) && At(text, pos + 6, l)
    requires pos + 5 < |text| && text[pos + 4] == BACKSLASH && text[pos + 5] == 0x75
    ensures Unicode(text, pos) == Result.Ok(0x10000 + (Hex4(h) - 0xD800) * 1024 + (Hex4(l) - 0xDC00), pos + 10)
  {
    hide Hex, Hex4, At, HexValue;
    HexIsRead(text, pos, h);
    HexIsRead(text, pos + 6, l);
  }

  lemma PlainIsRead(text: Bytes, pos: nat, c: int)
    requires IsScalar(c) && At(text, pos, Encode(c))
    ensures Peek(text, pos) == Result.Ok(c, pos) && Advance(text, pos) == Result.Ok(c, pos + |Encode(c)|)
    ensures pos < |text| && text[pos..pos + |Encode(c)|] == Encode(c)
  {
    EncodedIsChar(c);
    DecodeIsExact(text, pos, |Encode(c)|);
  }

  // One step of a string

  lemma PlainStep(text: Bytes, pos: nat, out: Bytes, c: int, next: nat)
    requires pos < |text| && Peek(text, pos) == Result.Ok(c, pos) && Advance(text, pos) == Result.Ok(c, next)
    requires c >= 0x20 && c != QUOTE && c != BACKSLASH
    ensures pos < next <= |text| && StringBody(text, pos, out) == StringBody(text, next, out + text[pos..next])
  {
    hide Peek, Advance, Unescaped, Unicode, Encode;
  }

  lemma ShortStep(text: Bytes, pos: nat, out: Bytes)
    requires pos + 1 < |text| && text[pos] == BACKSLASH && Unescaped(text[pos + 1]).Some?
    ensures StringBody(text, pos, out) == StringBody(text, pos + 2, out + [Unescaped(text[pos + 1]).value])
  {
    Ascii(text, pos);
    Ascii(text, pos + 1);
    hide Peek, Advance, Unescaped, Unicode, Encode;
  }

  lemma UnicodeStep(text: Bytes, pos: nat, out: Bytes)
    requires pos + 1 < |text| && text[pos] == BACKSLASH && text[pos + 1] == 0x75 && Unicode(text, pos + 2).Ok?
    ensures IsScalar(Unicode(text, pos + 2).value)
    ensures StringBody(text, pos, out) ==
            StringBody(text, Unicode(text, pos + 2).at, out + Encode(Unicode(text, pos + 2).value))
  {
    hide Peek, Advance, Unicode, Encode, IsScalar;
    Ascii(text, pos);
    Ascii(text, pos + 1);
    UnicodeIsScalar(text, pos + 2);
  }

  /** One character of a string: the parser adds its meaning and goes on after it. */
  lemma ChrIsRead(text: Bytes, pos: nat, ch: Chr, out: Bytes)
    requires ChrOk(ch) && At(text, pos, ChrText(ch))
    ensures pos + |ChrText(ch)| <= |text|
    ensures StringBody(text, pos, out) == StringBody(text, pos + |ChrText(ch)|, out + ChrMeaning(ch))
  {
    hide StringBody, Unicode, Encode, Hex4, HexValue, Peek, Advance, Unescaped, IsScalar;
    match ch {
      case Plain(c) =>
        PlainIsRead(text, pos, c);
        PlainStep(text, pos, out, c, pos + |Encode(c)|);
      case Short(letter) =>
        AtIndex(text, pos, [BACKSLASH, letter], 0);
        AtIndex(text, pos, [BACKSLASH, letter], 1);
        ShortStep(text, pos, out);
      case Unit(d) =>
        AtSplit(text, pos, [BACKSLASH, 0x75], d);
        EscapeU(text, pos);
        UnitIsRead(text, pos + 2, d);
        UnicodeStep(text, pos, out);
      case Pair(h, l) =>
        PairParts(text, pos, h, l);
        PairIsRead(text, pos + 2, h, l);
        UnicodeStep(text, pos, out);
    }
  }

  lemma EscapeU(text: Bytes, pos: nat)
    requires At(text, pos, [BACKSLASH, 0x75])
    ensures pos + 1 < |text| && text[pos] == BACKSLASH && text[pos + 1] == 0x75
  {
    AtIndex(text, pos, [BACKSLASH, 0x75], 0);
    AtIndex(text, pos, [BACKSLASH, 0x75], 1);
  }

  lemma PairParts(text: Bytes, pos: nat, h: Bytes, l: Bytes)
    requires ChrOk(Pair(h, l)) && At(text, pos, ChrText(Pair(h, l)))
    ensures |ChrText(Pair(h, l))| == 12
    ensures pos + 12 <= |text| && text[pos] == BACKSLASH && text[pos + 1] == 0x75
    ensures At(text, pos + 2, h) && At(text, pos + 8, l)
    ensures text[pos + 6] == BACKSLASH && text[pos + 7] == 0x75
  {
    hide At, Hex4, HexValue;
    AtSplit(text, pos, [BACKSLASH, 0x75] + h + [BACKSLASH, 0x75], l);
    AtSplit(text, pos, [BACKSLASH, 0x75] + h, [BACKSLASH, 0x75]);
    AtSplit(text, pos, [BACKSLASH, 0x75], h);
    EscapeU(text, pos);
    EscapeU(text, pos + 6);
    AtFits(text, pos + 8, l);
  }

  lemma {:induction false} CharsAreRead(text: Bytes, pos: nat, chars: seq<Chr>, out: Bytes)
    requires CharsOk(chars) && At(text, pos, CharsText(chars))
    ensures pos + |CharsText(chars)| <= |text|
    ensures StringBody(text, pos, out) == StringBody(text, pos + |CharsText(chars)|, out + CharsMeaning(chars))
    decreases |chars|
  {
    hide StringBody, ChrText, ChrMeaning, ChrOk, At;
    if chars == [] {
      AtFits(text, pos, []);
      assert out + CharsMeaning(chars) == out;
    } else {
      AtSplit(text, pos, ChrText(chars[0]), CharsText(chars[1..]));
      ChrIsRead(text, pos, chars[0], out);
      CharsAreRead(text, pos + |ChrText(chars[0])|, chars[1..], out + ChrMeaning(chars[0]));
      assert out + ChrMeaning(chars[0]) + CharsMeaning(chars[1..]) == out + CharsMeaning(chars);
    }
  }

  lemma QuoteStep(text: Bytes, pos: nat, out: Bytes)
    requires pos < |text| && text[pos] == QUOTE
    ensures StringBody(text, pos, out) == Result.Ok(out, pos + 1)
  {
    Ascii(text, pos);
  }

  lemma StringIsRead(text: Bytes, pos: nat, chars: seq<Chr>)
    requires CharsOk(chars) && At(text, pos, StringText(chars))
    ensures String(text, pos) == Result.Ok(CharsMeaning(chars), pos + |StringText(chars)|)
  {
    hide At, CharsText, CharsMeaning, StringBody, CharsOk;
    var body := CharsText(chars);
    AtSplit(text, pos, [QUOTE] + body, [QUOTE]);
    AtSplit(text, pos, [QUOTE], body);
    AtByte(text, pos, QUOTE);
    AtByte(text, pos + 1 + |body|, QUOTE);
    CharsAreRead(text, pos + 1, chars, []);
    QuoteStep(text, pos + 1 + |body|, CharsMeaning(chars));
    assert [] + CharsMeaning(chars) == CharsMeaning(chars);
  }

  // Numbers

  /** What stands at `pos` ends a number: the end, or a single byte no number has. */
  predicate EndsNumber(text: Bytes, pos: nat) {
    pos == |text| ||
    (pos < |text| && text[pos] <= 0x7F && !IsDigit(text[pos]) && text[pos] != DOT && text[pos] != 0x65 && text[pos] != 0x45)
  }

  /** A single byte that is not a digit, or the end. */
  predicate EndsDigits(text: Bytes, pos: nat) {
    pos == |text| || (pos < |text| && text[pos] <= 0x7F && !IsDigit(text[pos]))
  }

  lemma {:induction false} DigitsAreRead(text: Bytes, pos: nat, s: Bytes)
    requires At(text, pos, s) && AllDigits(s) && EndsDigits(text, pos + |s|)
    ensures Digits(text, pos) == Result.Ok((), pos + |s|)
    decreases |s|
  {
    if s == [] {
      if pos < |text| {
        Ascii(text, pos);
      }
    } else {
      AtHead(text, pos, s);
      Ascii(text, pos);
      DigitsAreRead(text, pos + 1, s[1..]);
    }
  }

  lemma SomeDigitsAreRead(text: Bytes, pos: nat, s: Bytes, cause: Cause)
    requires At(text, pos, s) && s != [] && AllDigits(s) && EndsDigits(text, pos + |s|)
    ensures SomeDigits(text, pos, cause) == Result.Ok((), pos + |s|)
  {
    AtHead(text, pos, s);
    Ascii(text, pos);
    DigitsAreRead(text, pos, s);
  }

  lemma IntegerIsRead(text: Bytes, pos: nat, s: Bytes)
    requires At(text, pos, s) && s != [] && AllDigits(s) && (s[0] == ZERO ==> |s| == 1) && EndsDigits(text, pos + |s|)
    ensures IntegerPart(text, pos) == Result.Ok((), pos + |s|)
  {
    AtHead(text, pos, s);
    Ascii(text, pos);
    DigitsAreRead(text, pos, s);
    if s[0] == ZERO && pos + 1 < |text| {
      Ascii(text, pos + 1);
    }
  }

  lemma NotSeen(text: Bytes, pos: nat, a: int, b: int)
    requires pos == |text| || (pos < |text| && text[pos] <= 0x7F && text[pos] != a && text[pos] != b)
    ensures Sees(text, pos, a, b) == Result.Ok(false, pos)
  {
    if pos < |text| {
      Ascii(text, pos);
    }
  }

  lemma Seen(text: Bytes, pos: nat, a: int, b: int)
    requires pos < |text| && text[pos] <= 0x7F && (text[pos] == a || text[pos] == b)
    ensures Sees(text, pos, a, b) == Result.Ok(true, pos) && Advance(text, pos).at == pos + 1
  {
    Ascii(text, pos);
  }

  lemma FractionIsRead(text: Bytes, pos: nat, f: Option<Bytes>)
    requires At(text, pos, FractionText(f)) && (f.Some? ==> f.value != [] && AllDigits(f.value))
    requires var end := pos + |FractionText(f)|;
             EndsDigits(text, end) && (end < |text| ==> text[end] != DOT)
    ensures Fraction(text, pos) == Result.Ok(f.Some?, pos + |FractionText(f)|)
  {
    if f.None? {
      NotSeen(text, pos, DOT, DOT);
    } else {
      AtHead(text, pos, FractionText(f));
      assert FractionText(f)[1..] == f.value;
      Seen(text, pos, DOT, DOT);
      SomeDigitsAreRead(text, pos + 1, f.value, FractionExpected);
    }
  }

  lemma ExponentIsRead(text: Bytes, pos: nat, p: Option<Power>)
    requires At(text, pos, PowerText(p)) && (p.Some? ==> PowerOk(p.value)) && EndsNumber(text, pos + |PowerText(p)|)
    ensures Exponent(text, pos) == Result.Ok(p.Some?, pos + |PowerText(p)|)
  {
    if p.None? {
      NotSeen(text, pos, 0x65, 0x45);
    } else {
      PowerIsRead(text, pos, p.value);
    }
  }

  lemma PowerIsRead(text: Bytes, pos: nat, p: Power)
    requires At(text, pos, PowerText(Some(p))) && PowerOk(p) && EndsNumber(text, pos + |PowerText(Some(p))|)
    ensures Exponent(text, pos) == Result.Ok(true, pos + |PowerText(Some(p))|)
  {
    hide At, Sees, SomeDigits, AllDigits, Advance;
    PowerParts(text, pos, p);
    Seen(text, pos, 0x65, 0x45);
    AtFirst(text, pos + 1 + |p.sign|, p.digits);
    SignIsRead(text, pos + 1, p);
    SomeDigitsAreRead(text, pos + 1 + |p.sign|, p.digits, ExponentExpected);
  }

  lemma PowerParts(text: Bytes, pos: nat, p: Power)
    requires At(text, pos, PowerText(Some(p)))
    ensures pos < |text| && text[pos] == p.marker && At(text, pos + 1, p.sign) && At(text, pos + 1 + |p.sign|, p.digits)
  {
    hide At;
    AtSplit(text, pos, [p.marker] + p.sign, p.digits);
    AtSplit(text, pos, [p.marker], p.sign);
    AtByte(text, pos, p.marker);
  }

  lemma SignIsRead(text: Bytes, pos: nat, p: Power)
    requires PowerOk(p) && At(text, pos, p.sign) && At(text, pos + |p.sign|, p.digits)
    ensures pos <= |text| && Sees(text, pos, PLUS, MINUS) == Result.Ok(p.sign != [], pos)
    ensures p.sign != [] ==> Advance(text, pos).at == pos + |p.sign|
  {
    hide At, Sees, Advance;
    AtFirst(text, pos + |p.sign|, p.digits);
    if p.sign == [] {
      NotSeen(text, pos, PLUS, MINUS);
    } else {
      AtFirst(text, pos, p.sign);
      Seen(text, pos, PLUS, MINUS);
    }
  }

  lemma NumberParts(text: Bytes, pos: nat, m: Bytes, i: Bytes, f: Bytes, p: Bytes)
    requires At(text, pos, m + i + f + p)
    ensures At(text, pos, m) && At(text, pos + |m|, i) && At(text, pos + |m| + |i|, f)
    ensures At(text, pos + |m| + |i| + |f|, p) && pos + |m + i + f + p| <= |text|
    ensures text[pos..pos + |m + i + f + p|] == m + i + f + p
  {
    AtSplit(text, pos, m + i + f, p);
    AtSplit(text, pos, m + i, f);
    AtSplit(text, pos, m, i);
  }

  lemma MinusIsRead(text: Bytes, pos: nat, minus: bool, i: Bytes)
    requires At(text, pos, MinusText(minus)) && At(text, pos + |MinusText(minus)|, i) && i != [] && AllDigits(i)
    ensures pos <= |text| && Sees(text, pos, MINUS, MINUS) == Result.Ok(minus, pos)
    ensures minus ==> Advance(text, pos).at == pos + |MinusText(minus)|
  {
    hide At, Sees, Advance;
    AtFirst(text, pos + |MinusText(minus)|, i);
    if minus {
      AtFirst(text, pos, [MINUS]);
      Seen(text, pos, MINUS, MINUS);
    } else {
      NotSeen(text, pos, MINUS, MINUS);
    }
  }

  /** Where the integer part and the fraction end, digits end. */
  lemma PartsEndDigits(text: Bytes, pos: nat, f: Option<Bytes>, p: Option<Power>)
    requires p.Some? ==> PowerOk(p.value)
    requires At(text, pos, FractionText(f)) && At(text, pos + |FractionText(f)|, PowerText(p))
    requires EndsNumber(text, pos + |FractionText(f)| + |PowerText(p)|)
    ensures var end := pos + |FractionText(f)|;
            EndsDigits(text, pos) && EndsDigits(text, end) && (end < |text| ==> text[end] != DOT)
  {
    hide At;
    if p.Some? {
      AtFirst(text, pos + |FractionText(f)|, PowerText(p));
    }
    if f.Some? {
      AtFirst(text, pos, FractionText(f));
    }
  }

  /** The parts of a number are found one after the other. */
  lemma PartsAreRead(text: Bytes, pos: nat, minus: bool, integer: Bytes, fraction: Option<Bytes>, power: Option<Power>)
    requires NumberOk(integer, fraction, power) && At(text, pos, NumberText(minus, integer, fraction, power))
    requires EndsNumber(text, pos + |NumberText(minus, integer, fraction, power)|)
    ensures pos <= |text| && Sees(text, pos, MINUS, MINUS) == Result.Ok(minus, pos)
    ensures var i := if minus then Advance(text, pos).at else pos;
            var f := i + |integer|;
            var e := f + |FractionText(fraction)|;
            var end := pos + |NumberText(minus, integer, fraction, power)|;
            && e <= |text| && end <= |text| && text[pos..end] == NumberText(minus, integer, fraction, power)
            && IntegerPart(text, i) == Result.Ok((), f)
            && Fraction(text, f) == Result.Ok(fraction.Some?, e)
            && Exponent(text, e) == Result.Ok(power.Some?, end)
  {
    hide At, Sees, Advance, IntegerPart, Fraction, Exponent, MinusText, FractionText, PowerText, PowerOk, AllDigits,
      EndsNumber, EndsDigits;
    var m, i, f, p := MinusText(minus), integer, FractionText(fraction), PowerText(power);
    NumberParts(text, pos, m, i, f, p);
    PartsEndDigits(text, pos + |m| + |i|, fraction, power);
    MinusIsRead(text, pos, minus, i);
    MinusLength(minus);
    IntegerIsRead(text, pos + |m|, i);
    FractionIsRead(text, pos + |m| + |i|, fraction);
    ExponentIsRead(text, pos + |m| + |i| + |f|, power);
  }

  lemma NumberIsRead(text: Bytes, pos: nat, t: Tree, finite: Bytes -> bool)
    requires t.TNumber? && JsonGrammar.Ok(t, finite) && At(text, pos, Text(t, finite))
    requires EndsNumber(text, pos + |Text(t, finite)|)
    ensures Number(text, pos, finite) == Result.Ok(Meaning(t, finite), pos + |Text(t, finite)|)
  {
    hide At, Sees, Advance, IntegerPart, Fraction, Exponent, NumberText, FractionText, EndsNumber, ToInt, NumberOk;
    PartsAreRead(text, pos, t.minus, t.integer, t.fraction, t.power);
  }

  lemma MinusLength(minus: bool)
    ensures |MinusText(minus)| == if minus then 1 else 0
  {}

  // Values

  /** What may follow a value: the end, white space, a separator or a closing bracket. */
  predicate EndsValue(text: Bytes, pos: nat) {
    pos == |text| ||
    (pos < |text| && (IsSpace(text[pos]) || text[pos] == COMMA || text[pos] == CLOSE_BRACKET || text[pos] == CLOSE_BRACE))
  }

  lemma NumberHead(minus: bool, integer: Bytes, fraction: Option<Bytes>, power: Option<Power>)
    requires NumberOk(integer, fraction, power)
    ensures var s := NumberText(minus, integer, fraction, power);
            s != [] && (s[0] == MINUS || IsDigit(s[0]))
  {}

  /** The first byte of a value says what kind of value it is. */
  lemma TextHead(t: Tree, finite: Bytes -> bool)
    requires JsonGrammar.Ok(t, finite)
    ensures var b := Text(t, finite)[0];
            match t
            case TNull => b == 0x6E
            case TBool(v) => b == if v then 0x74 else 0x66
            case TNumber(_, _, _, _) => b == MINUS || IsDigit(b)
            case TString(_) => b == QUOTE
            case TArray(_, _) => b == OPEN_BRACKET
            case TObject(_, _) => b == OPEN_BRACE
  {
    hide NumberText, CharsText;
    if t.TNumber? {
      NumberHead(t.minus, t.integer, t.fraction, t.power);
    }
  }

  lemma ValueStarts(text: Bytes, pos: nat, t: Tree, finite: Bytes -> bool)
    requires JsonGrammar.Ok(t, finite) && At(text, pos, Text(t, finite))
    ensures pos < |text| && text[pos] == Text(t, finite)[0] && text[pos] <= 0x7F && !IsSpace(text[pos])
    ensures EndsSpace(text, pos) && SkipSpace(text, pos) == Result.Ok((), pos)
  {
    hide At, Text, JsonGrammar.Ok, SkipSpace;
    TextHead(t, finite);
    AtFirst(text, pos, Text(t, finite));
    NoSpaceSkipped(text, pos);
  }

  lemma NoSpaceSkipped(text: Bytes, pos: nat)
    requires EndsSpace(text, pos)
    ensures pos <= |text| && SkipSpace(text, pos) == Result.Ok((), pos)
  {
    hide SkipSpace;
    assert At(text, pos, []);
    SpaceIsSkipped(text, pos, []);
  }

  /** What the first byte of a value leads to. */
  lemma ValAt(text: Bytes, pos: nat, finite: Bytes -> bool)
    requires pos < |text| && text[pos] <= 0x7F && SkipSpace(text, pos) == Result.Ok((), pos)
    ensures text[pos] == OPEN_BRACE ==> Val(text, pos, finite) == Obj(text, pos, finite)
    ensures text[pos] == OPEN_BRACKET ==> Val(text, pos, finite) == Arr(text, pos, finite)
    ensures text[pos] == QUOTE && String(text, pos).Ok? ==>
              Val(text, pos, finite) == Result.Ok(Texte(String(text, pos).value), String(text, pos).at)
    ensures text[pos] == 0x74 && Literal(text, pos, TRUE_LITERAL).Ok? ==>
              Val(text, pos, finite) == Result.Ok(Logique(true), Literal(text, pos, TRUE_LITERAL).at)
    ensures text[pos] == 0x66 && Literal(text, pos, FALSE_LITERAL).Ok? ==>
              Val(text, pos, finite) == Result.Ok(Logique(false), Literal(text, pos, FALSE_LITERAL).at)
    ensures text[pos] == 0x6E && Literal(text, pos, NULL_LITERAL).Ok? ==>
              Val(text, pos, finite) == Result.Ok(Rien, Literal(text, pos, NULL_LITERAL).at)
    ensures text[pos] == MINUS || IsDigit(text[pos]) ==> Val(text, pos, finite) == Number(text, pos, finite)
  {
    hide Obj, Arr, String, Literal, Number, Peek, SkipSpace;
    Ascii(text, pos);
  }

  lemma {:induction false} ValueIsRead(text: Bytes, pos: nat, t: Tree, finite: Bytes -> bool)
    requires JsonGrammar.Ok(t, finite) && At(text, pos, Text(t, finite))
    requires EndsValue(text, pos + |Text(t, finite)|)
    ensures pos <= |text| && Val(text, pos, finite) == Result.Ok(Meaning(t, finite), pos + |Text(t, finite)|)
    decreases t, 0
  {
    hide At, Val, Obj, Arr, String, Literal, Number, SkipSpace, NumberText, CharsText, CharsMeaning, Elements, Members,
      DistinctKeys, EndsValue, EndsNumber;
    ValueStarts(text, pos, t, finite);
    TextHead(t, finite);
    ValAt(text, pos, finite);
    match t {
      case TNull => LiteralIsRead(text, pos, NULL_LITERAL);
      case TBool(b) => LiteralIsRead(text, pos, if b then TRUE_LITERAL else FALSE_LITERAL);
      case TNumber(_, _, _, _) =>
        ValueEndsNumber(text, pos + |Text(t, finite)|);
        NumberIsRead(text, pos, t, finite);
      case TString(chars) => StringIsRead(text, pos, chars);
      case TArray(pad, items) =>
        if items == [] {
          EmptyArrayIsRead(text, pos, pad, finite);
        } else {
          ArrayIsRead(text, pos, items, finite);
        }
      case TObject(pad, members) =>
        if members == [] {
          EmptyObjectIsRead(text, pos, pad, finite);
        } else {
          ObjectIsRead(text, pos, members, finite);
        }
    }
  }

  lemma ValueEndsNumber(text: Bytes, pos: nat)
    requires EndsValue(text, pos)
    ensures EndsNumber(text, pos)
  {}

  // Arrays

  /** An opening bracket, something, and a closing bracket. */
  lemma Brackets(text: Bytes, pos: nat, open: Byte, body: Bytes, close: Byte)
    requires At(text, pos, [open] + body + [close])
    ensures pos < |text| && text[pos] == open && At(text, pos + 1, body)
    ensures pos + 1 + |body| < |text| && text[pos + 1 + |body|] == close
  {
    hide At;
    AtSplit(text, pos, [open] + body, [close]);
    AtSplit(text, pos, [open], body);
    AtByte(text, pos, open);
    AtByte(text, pos + 1 + |body|, close);
  }

  lemma EmptyArrayIsRead(text: Bytes, pos: nat, pad: Bytes, finite: Bytes -> bool)
    requires AllSpace(pad) && At(text, pos, [OPEN_BRACKET] + pad + [CLOSE_BRACKET])
    ensures pos <= |text| && Arr(text, pos, finite) == Result.Ok(Liste([]), pos + |pad| + 2)
  {
    hide At, AllSpace, SkipSpace, Sees, Advance, Elements;
    Brackets(text, pos, OPEN_BRACKET, pad, CLOSE_BRACKET);
    SpaceIsSkipped(text, pos + 1, pad);
    Seen(text, pos + 1 + |pad|, CLOSE_BRACKET, CLOSE_BRACKET);
  }

  lemma EmptyObjectIsRead(text: Bytes, pos: nat, pad: Bytes, finite: Bytes -> bool)
    requires AllSpace(pad) && At(text, pos, [OPEN_BRACE] + pad + [CLOSE_BRACE])
    ensures pos <= |text| && Obj(text, pos, finite) == Result.Ok(Dictionnaire([]), pos + |pad| + 2)
  {
    hide At, AllSpace, SkipSpace, Sees, Advance, Members;
    Brackets(text, pos, OPEN_BRACE, pad, CLOSE_BRACE);
    SpaceIsSkipped(text, pos + 1, pad);
    Seen(text, pos + 1 + |pad|, CLOSE_BRACE, CLOSE_BRACE);
  }

  /** White space before a value is skipped once more without effect. */
  lemma ElementsSkipSpace(text: Bytes, pos: nat, finite: Bytes -> bool, done: seq<Json>)
    requires pos <= |text| && SkipSpace(text, pos).Ok? && EndsSpace(text, SkipSpace(text, pos).at)
    ensures Elements(text, pos, finite, done) == Elements(text, SkipSpace(text, pos).at, finite, done)
  {
    hide SkipSpace, Val, Peek;
    NoSpaceSkipped(text, SkipSpace(text, pos).at);
  }

  lemma ArrayIsRead(text: Bytes, pos: nat, items: seq<Item>, finite: Bytes -> bool)
    requires items != [] && ItemsOk(items, finite)
    requires At(text, pos, [OPEN_BRACKET] + ItemsText(items, finite) + [CLOSE_BRACKET])
    ensures pos <= |text|
    ensures Arr(text, pos, finite) == Result.Ok(Liste(ItemsMeaning(items, finite)), pos + |ItemsText(items, finite)| + 2)
    decreases items, 2
  {
    hide At, AllSpace, SkipSpace, Sees, Advance, Elements, ItemsText, ItemsMeaning, Text, JsonGrammar.Ok;
    Brackets(text, pos, OPEN_BRACKET, ItemsText(items, finite), CLOSE_BRACKET);
    FirstItem(text, pos + 1, items, finite);
    var p := pos + 1 + |items[0].before|;
    SpaceIsSkipped(text, pos + 1, items[0].before);
    TextHead(items[0].tree, finite);
    NotSeen(text, p, CLOSE_BRACKET, CLOSE_BRACKET);
    ElementsSkipSpace(text, pos + 1, finite, []);
    ItemsAreRead(text, pos + 1, items, finite, []);
    assert [] + ItemsMeaning(items, finite) == ItemsMeaning(items, finite);
  }

  lemma FirstItem(text: Bytes, pos: nat, items: seq<Item>, finite: Bytes -> bool)
    requires items != [] && ItemsOk(items, finite) && At(text, pos, ItemsText(items, finite))
    ensures JsonGrammar.Ok(items[0].tree, finite)
    ensures var i := items[0];
            var p := pos + |i.before|;
            var q := p + |Text(i.tree, finite)|;
            var rest := if |items| == 1 then [] else [COMMA] + ItemsText(items[1..], finite);
            && At(text, pos, i.before) && At(text, p, Text(i.tree, finite)) && At(text, q, i.after)
            && At(text, q + |i.after|, rest)
            && |ItemsText(items, finite)| == |i.before| + |Text(i.tree, finite)| + |i.after| + |rest|
            && EndsSpace(text, p) && p < |text| && text[p] == Text(i.tree, finite)[0] && text[p] <= 0x7F
  {
    hide At, AllSpace, Text, JsonGrammar.Ok, EndsSpace;
    var i := items[0];
    var rest := if |items| == 1 then [] else [COMMA] + ItemsText(items[1..], finite);
    AtSplit(text, pos, i.before + Text(i.tree, finite) + i.after, rest);
    AtThree(text, pos, i.before, Text(i.tree, finite), i.after);
    ValueStarts(text, pos + |i.before|, i.tree, finite);
  }

  /** One element, given what its value is. */
  lemma ElementStep(text: Bytes, pos: nat, finite: Bytes -> bool, done: seq<Json>, p: nat, q: nat, r: nat, v: Json)
    requires pos <= p <= q <= r < |text| && SkipSpace(text, pos) == Result.Ok((), p)
    requires Val(text, p, finite) == Result.Ok(v, q) && SkipSpace(text, q) == Result.Ok((), r)
    ensures text[r] == COMMA ==> Elements(text, pos, finite, done) == Elements(text, r + 1, finite, done + [v])
    ensures text[r] == CLOSE_BRACKET ==> Elements(text, pos, finite, done) == Result.Ok(Liste(done + [v]), r + 1)
  {
    hide SkipSpace, Val, Peek, Advance;
    if text[r] == COMMA || text[r] == CLOSE_BRACKET {
      Ascii(text, r);
    }
  }

  /** Space after a value up to a separator or a closing bracket. */
  lemma AfterValue(text: Bytes, q: nat, after: Bytes)
    requires At(text, q, after) && AllSpace(after) && q + |after| < |text|
    requires text[q + |after|] == COMMA || text[q + |after|] == CLOSE_BRACKET || text[q + |after|] == CLOSE_BRACE
    ensures EndsValue(text, q) && q <= |text| && SkipSpace(text, q) == Result.Ok((), q + |after|)
  {
    hide SkipSpace;
    SpaceIsSkipped(text, q, after);
    if after != [] {
      AtIndex(text, q, after, 0);
    }
  }

  lemma {:induction false} ItemsAreRead(text: Bytes, pos: nat, items: seq<Item>, finite: Bytes -> bool, done: seq<Json>)
    requires items != [] && ItemsOk(items, finite) && At(text, pos, ItemsText(items, finite))
    requires pos + |ItemsText(items, finite)| < |text| && text[pos + |ItemsText(items, finite)|] == CLOSE_BRACKET
    ensures Elements(text, pos, finite, done) ==
            Result.Ok(Liste(done + ItemsMeaning(items, finite)), pos + |ItemsText(items, finite)| + 1)
    decreases items, 1
  {
    hide At, AllSpace, SkipSpace, Elements, Val, Text, JsonGrammar.Ok, ItemsText, EndsValue, EndsSpace, ItemsMeaning, Meaning;
    var i := items[0];
    FirstItem(text, pos, items, finite);
    var p := pos + |i.before|;
    var q := p + |Text(i.tree, finite)|;
    var r := q + |i.after|;
    if |items| > 1 {
      CommaThen(text, r, ItemsText(items[1..], finite));
    }
    SpaceIsSkipped(text, pos, i.before);
    AfterValue(text, q, i.after);
    ValueIsRead(text, p, i.tree, finite);
    ElementStep(text, pos, finite, done, p, q, r, Meaning(i.tree, finite));
    ItemsMeaningStep(items, finite, done);
    if |items| > 1 {
      ItemsAreRead(text, r + 1, items[1..], finite, done + [Meaning(i.tree, finite)]);
    }
  }

  lemma {:induction false} ItemsMeaningStep(items: seq<Item>, finite: Bytes -> bool, done: seq<Json>)
    requires items != [] && ItemsOk(items, finite)
    ensures JsonGrammar.Ok(items[0].tree, finite)
    ensures var more := done + [Meaning(items[0].tree, finite)];
            && (|items| > 1 ==> more + ItemsMeaning(items[1..], finite) == done + ItemsMeaning(items, finite))
            && (|items| == 1 ==> more == done + ItemsMeaning(items, finite))
  {
    hide AllSpace, JsonGrammar.Ok, Meaning;
    var v := Meaning(items[0].tree, finite);
    if |items| > 1 {
      assert done + [v] + ItemsMeaning(items[1..], finite) == done + ([v] + ItemsMeaning(items[1..], finite));
    } else {
      assert items[1..] == [];
    }
  }

  lemma CommaThen(text: Bytes, r: nat, rest: Bytes)
    requires At(text, r, [COMMA] + rest)
    ensures r < |text| && text[r] == COMMA && At(text, r + 1, rest)
  {
    hide At;
    AtSplit(text, r, [COMMA], rest);
    AtByte(text, r, COMMA);
  }

  // Objects

  lemma FirstMember(text: Bytes, pos: nat, members: seq<Member>, finite: Bytes -> bool)
    requires members != [] && MembersOk(members, finite) && At(text, pos, MembersText(members, finite))
    ensures CharsOk(members[0].key) && JsonGrammar.Ok(members[0].tree, finite)
    ensures var m := members[0];
            var k := pos + |m.before|;
            var a := k + |StringText(m.key)|;
            var c := a + |m.afterKey|;
            var p := c + 1 + |m.beforeValue|;
            var q := p + |Text(m.tree, finite)|;
            var rest := if |members| == 1 then [] else [COMMA] + MembersText(members[1..], finite);
            && At(text, pos, m.before) && At(text, k, StringText(m.key)) && At(text, a, m.afterKey)
            && c < |text| && text[c] == COLON && At(text, c + 1, m.beforeValue)
            && At(text, p, Text(m.tree, finite)) && At(text, q, m.after) && At(text, q + |m.after|, rest)
            && pos + |MembersText(members, finite)| == q + |m.after| + |rest|
  {
    hide At, AllSpace, Text, JsonGrammar.Ok, StringText, CharsOk, MembersText;
    MembersTextStep(members, finite);
    var m := members[0];
    var rest := if |members| == 1 then [] else [COMMA] + MembersText(members[1..], finite);
    AtMember(text, pos, m.before, StringText(m.key), m.afterKey, m.beforeValue, Text(m.tree, finite), m.after, rest);
  }

  lemma {:induction false} MembersTextStep(members: seq<Member>, finite: Bytes -> bool)
    requires members != [] && MembersOk(members, finite)
    ensures var m := members[0];
            && CharsOk(m.key) && JsonGrammar.Ok(m.tree, finite) && MembersOk(members[1..], finite)
            && MembersText(members, finite) ==
               m.before + StringText(m.key) + m.afterKey + [COLON] + m.beforeValue + Text(m.tree, finite) + m.after
               + (if |members| == 1 then [] else [COMMA] + MembersText(members[1..], finite))
  {
    hide AllSpace, Text, JsonGrammar.Ok, StringText, CharsOk;
  }

  lemma AtMember(text: Bytes, pos: nat, before: Bytes, key: Bytes, afterKey: Bytes, beforeValue: Bytes, value: Bytes,
                 after: Bytes, rest: Bytes)
    requires At(text, pos, before + key + afterKey + [COLON] + beforeValue + value + after + rest)
    ensures var k := pos + |before|;
            var a := k + |key|;
            var c := a + |afterKey|;
            var p := c + 1 + |beforeValue|;
            var q := p + |value|;
            && At(text, pos, before) && At(text, k, key) && At(text, a, afterKey)
            && c < |text| && text[c] == COLON && At(text, c + 1, beforeValue)
            && At(text, p, value) && At(text, q, after) && At(text, q + |after|, rest)
            && |before + key + afterKey + [COLON] + beforeValue + value + after + rest| == q + |after| + |rest| - pos
  {
    hide At;
    var left := before + key + afterKey;
    AtSplit(text, pos, left + [COLON] + beforeValue + value + after, rest);
    AtSplit(text, pos, left + [COLON] + beforeValue + value, after);
    AtThree(text, pos, left + [COLON], beforeValue, value);
    AtSplit(text, pos, left, [COLON]);
    AtByte(text, pos + |left|, COLON);
    AtThree(text, pos, before, key, afterKey);
  }

  lemma MembersSkipSpace(text: Bytes, pos: nat, finite: Bytes -> bool, done: seq<Entry>, seen: set<Bytes>)
    requires pos <= |text| && SkipSpace(text, pos).Ok? && EndsSpace(text, SkipSpace(text, pos).at)
    ensures Members(text, pos, finite, done, seen) == Members(text, SkipSpace(text, pos).at, finite, done, seen)
  {
    hide SkipSpace, Val, Peek, Sees, String;
    NoSpaceSkipped(text, SkipSpace(text, pos).at);
  }

  lemma ObjectIsRead(text: Bytes, pos: nat, members: seq<Member>, finite: Bytes -> bool)
    requires members != [] && MembersOk(members, finite) && DistinctKeys(members, {})
    requires At(text, pos, [OPEN_BRACE] + MembersText(members, finite) + [CLOSE_BRACE])
    ensures pos <= |text|
    ensures Obj(text, pos, finite) ==
            Result.Ok(Dictionnaire(MembersMeaning(members, finite)), pos + |MembersText(members, finite)| + 2)
    decreases members, 2
  {
    hide At, AllSpace, SkipSpace, Sees, Advance, Members, MembersText, MembersMeaning, Text, JsonGrammar.Ok, DistinctKeys,
      CharsText, CharsOk;
    Brackets(text, pos, OPEN_BRACE, MembersText(members, finite), CLOSE_BRACE);
    FirstMember(text, pos + 1, members, finite);
    var p := pos + 1 + |members[0].before|;
    AtFirst(text, p, StringText(members[0].key));
    SpaceIsSkipped(text, pos + 1, members[0].before);
    NotSeen(text, p, CLOSE_BRACE, CLOSE_BRACE);
    MembersSkipSpace(text, pos + 1, finite, [], {});
    MembersAreRead(text, pos + 1, members, finite, [], {});
    assert [] + MembersMeaning(members, finite) == MembersMeaning(members, finite);
  }

  /** One member, given what its key and its value are. */
  lemma MemberStep(text: Bytes, pos: nat, finite: Bytes -> bool, done: seq<Entry>, seen: set<Bytes>,
                   k: nat, a: nat, c: nat, p: nat, q: nat, r: nat, key: Bytes, v: Json)
    requires pos <= k <= a <= c < p <= q <= r < |text|
    requires SkipSpace(text, pos) == Result.Ok((), k) && text[k] == QUOTE && String(text, k) == Result.Ok(key, a)
    requires key !in seen && SkipSpace(text, a) == Result.Ok((), c) && text[c] == COLON
    requires SkipSpace(text, c + 1) == Result.Ok((), p) && Val(text, p, finite) == Result.Ok(v, q)
    requires SkipSpace(text, q) == Result.Ok((), r)
    ensures text[r] == COMMA ==> Members(text, pos, finite, done, seen) ==
                                 Members(text, r + 1, finite, done + [Entry(key, v)], seen + {key})
    ensures text[r] == CLOSE_BRACE ==>
              Members(text, pos, finite, done, seen) == Result.Ok(Dictionnaire(done + [Entry(key, v)]), r + 1)
  {
    hide SkipSpace, Val, Peek, Advance, String, Sees;
    Seen(text, k, QUOTE, QUOTE);
    if text[r] == COMMA || text[r] == CLOSE_BRACE {
      Ascii(text, r);
    }
  }

  /** The key of a member, the colon after it and the start of the value. */
  lemma KeyIsRead(text: Bytes, pos: nat, m: Member, finite: Bytes -> bool)
    requires AllSpace(m.before) && CharsOk(m.key) && AllSpace(m.afterKey) && AllSpace(m.beforeValue)
    requires JsonGrammar.Ok(m.tree, finite)
    requires var k := pos + |m.before|;
             var a := k + |StringText(m.key)|;
             var c := a + |m.afterKey|;
             var p := c + 1 + |m.beforeValue|;
             && At(text, pos, m.before) && At(text, k, StringText(m.key)) && At(text, a, m.afterKey)
             && c < |text| && text[c] == COLON && At(text, c + 1, m.beforeValue) && At(text, p, Text(m.tree, finite))
    ensures var k := pos + |m.before|;
            var a := k + |StringText(m.key)|;
            var c := a + |m.afterKey|;
            && k < a <= c < |text| && text[k] == QUOTE
            && SkipSpace(text, pos) == Result.Ok((), k) && String(text, k) == Result.Ok(KeyOf(m), a)
            && SkipSpace(text, a) == Result.Ok((), c)
            && SkipSpace(text, c + 1) == Result.Ok((), c + 1 + |m.beforeValue|)
  {
    hide At, AllSpace, SkipSpace, String, Text, JsonGrammar.Ok, CharsOk, CharsText;
    var k := pos + |m.before|;
    var a := k + |StringText(m.key)|;
    var c := a + |m.afterKey|;
    AtFirst(text, k, StringText(m.key));
    StringIsRead(text, k, m.key);
    SpaceIsSkipped(text, pos, m.before);
    SpaceIsSkipped(text, a, m.afterKey);
    ValueStarts(text, c + 1 + |m.beforeValue|, m.tree, finite);
    SpaceIsSkipped(text, c + 1, m.beforeValue);
  }

  lemma {:induction false} MembersAreRead(text: Bytes, pos: nat, members: seq<Member>, finite: Bytes -> bool,
                                          done: seq<Entry>, seen: set<Bytes>)
    requires members != [] && MembersOk(members, finite) && DistinctKeys(members, seen)
    requires At(text, pos, MembersText(members, finite))
    requires pos + |MembersText(members, finite)| < |text| && text[pos + |MembersText(members, finite)|] == CLOSE_BRACE
    ensures Members(text, pos, finite, done, seen) ==
            Result.Ok(Dictionnaire(done + MembersMeaning(members, finite)), pos + |MembersText(members, finite)| + 1)
    decreases members, 1
  {
    hide At, AllSpace, SkipSpace, Members, Val, Text, JsonGrammar.Ok, MembersText, EndsValue, EndsSpace, String, StringText,
      KeyOf, CharsOk, MembersMeaning, Meaning;
    var m := members[0];
    FirstMember(text, pos, members, finite);
    KeyIsRead(text, pos, m, finite);
    var k := pos + |m.before|;
    var a := k + |StringText(m.key)|;
    var c := a + |m.afterKey|;
    var p := c + 1 + |m.beforeValue|;
    var q := p + |Text(m.tree, finite)|;
    var r := q + |m.after|;
    if |members| > 1 {
      CommaThen(text, r, MembersText(members[1..], finite));
    }
    AfterValue(text, q, m.after);
    ValueIsRead(text, p, m.tree, finite);
    MemberStep(text, pos, finite, done, seen, k, a, c, p, q, r, KeyOf(m), Meaning(m.tree, finite));
    MembersMeaningStep(members, finite, done);
    if |members| > 1 {
      MembersAreRead(text, r + 1, members[1..], finite, done + [Entry(KeyOf(m), Meaning(m.tree, finite))], seen + {KeyOf(m)});
    }
  }

  lemma {:induction false} MembersMeaningStep(members: seq<Member>, finite: Bytes -> bool, done: seq<Entry>)
    requires members != [] && MembersOk(members, finite)
    ensures CharsOk(members[0].key) && JsonGrammar.Ok(members[0].tree, finite)
    ensures var more := done + [Entry(KeyOf(members[0]), Meaning(members[0].tree, finite))];
            && (|members| > 1 ==> more + MembersMeaning(members[1..], finite) == done + MembersMeaning(members, finite))
            && (|members| == 1 ==> more == done + MembersMeaning(members, finite))
  {
    hide AllSpace, CharsOk, JsonGrammar.Ok, KeyOf, Meaning;
    var e := Entry(KeyOf(members[0]), Meaning(members[0].tree, finite));
    if |members| > 1 {
      assert done + [e] + MembersMeaning(members[1..], finite) == done + ([e] + MembersMeaning(members[1..], finite));
    } else {
      assert members[1..] == [];
    }
  }

  // Documents

  /** Every text of the grammar is taken, for what it means. */
  lemma DocumentIsRead(text: Bytes, lead: Bytes, t: Tree, trail: Bytes, finite: Bytes -> bool)
    requires Denotes(text, lead, t, trail, finite)
    ensures Document(text, finite) == Result.Ok(Meaning(t, finite), |text|)
  {
    hide At, AllSpace, SkipSpace, Val, Text, Meaning, JsonGrammar.Ok, EndsSpace, EndsValue;
    WholeIsAt(text, lead, Text(t, finite), trail);
    ValueStarts(text, |lead|, t, finite);
    SpaceIsSkipped(text, 0, lead);
    TrailEnds(text, |lead| + |Text(t, finite)|, trail);
    ValueIsRead(text, |lead|, t, finite);
    SpaceIsSkipped(text, |lead| + |Text(t, finite)|, trail);
  }

  lemma WholeIsAt(text: Bytes, a: Bytes, b: Bytes, c: Bytes)
    requires text == a + b + c
    ensures At(text, 0, a) && At(text, |a|, b) && At(text, |a| + |b|, c)
  {
    assert text[0..|text|] == text;
    AtThree(text, 0, a, b, c);
  }

  lemma TrailEnds(text: Bytes, pos: nat, trail: Bytes)
    requires At(text, pos, trail) && AllSpace(trail) && pos + |trail| == |text|
    ensures EndsValue(text, pos) && EndsSpace(text, |text|)
  {
    if trail != [] {
      AtIndex(text, pos, trail, 0);
    }
  }
}
