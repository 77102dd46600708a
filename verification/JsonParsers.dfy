/** The JSON parser: one pass over the text, by Unicode characters, keeping
    the line and the column for error messages. Each method does what the function of
    the same name says.
 */
module JsonParsers {
  import opened Numerals
  import opened Utf8
  import opened JsonParsing

  /** The line and column of `to`, counted from `from`, whose own are given; nothing
      when no character starts at `to`. */
  function Position(text: Bytes, from: nat, to: nat, line: nat, column: nat): Option<(nat, nat)>
    requires from <= |text|
    decreases |text| - from
  {
    if from == to then Some((line, column))
    else match Decode(text, from)
      case None => None
      case Some(d) =>
        if d.character == NEWLINE then Position(text, d.next, to, line + 1, 1)
        else Position(text, d.next, to, line, column + 1)
  }

  lemma {:induction false} PositionNext(text: Bytes, from: nat, to: nat, line: nat, column: nat)
    requires from <= to && to < |text| && Decode(text, to).Some?
    requires Position(text, from, to, line, column).Some?
    ensures var (l, c) := Position(text, from, to, line, column).value;
            var d := Decode(text, to).value;
            Position(text, from, d.next, line, column) == Some(if d.character == NEWLINE then (l + 1, 1) else (l, c + 1))
    decreases |text| - from
  {
    if from != to {
      var d := Decode(text, from).value;
      var (l, c) := if d.character == NEWLINE then (line + 1, 1) else (line, column + 1);
      PositionAfter(text, d.next, to, l, c);
      PositionNext(text, d.next, to, l, c);
    }
  }

  lemma {:induction false} PositionAfter(text: Bytes, from: nat, to: nat, line: nat, column: nat)
    requires from <= |text| && Position(text, from, to, line, column).Some?
    ensures from <= to
    decreases |text| - from
  {
    if from != to {
      var d := Decode(text, from).value;
      var (l, c) := if d.character == NEWLINE then (line + 1, 1) else (line, column + 1);
      PositionAfter(text, d.next, to, l, c);
    }
  }

  class JsonParser {
    const text: Bytes
    const finite: Bytes -> bool
    var pos: nat
    var line: nat
    var column: nat

    /** The parser stands between two characters, and knows on which line and column. */
    ghost predicate Located()
      reads this
    {
      pos <= |text| && Position(text, 0, pos, 1, 1) == Some((line, column))
    }

    constructor (text: Bytes, finite: Bytes -> bool)
      ensures Located() && pos == 0 && this.text == text && this.finite == finite
    {
      this.text, this.finite := text, finite;
      pos, line, column := 0, 1, 1;
    }

    method PeekOne() returns (r: Result<int>)
      requires Located() && pos <= |text|
      ensures r == Peek(text, pos)
    {
      if pos >= |text| {
        return Ok(0, pos);
      }
      var next := DecodeOne(text, pos);
      if next.None? {
        return Fail(InvalidUtf8, pos);
      }
      return Ok(next.value.character, pos);
    }

    method AdvanceOne() returns (r: Result<int>)
      requires Located() && pos <= |text|
      modifies this
      ensures Located() && pos <= |text| && r == Advance(text, old(pos)) && pos == r.at
      ensures old(pos) < |text| && Peek(text, old(pos)).Ok? ==> r.Ok?
    {
      if pos >= |text| {
        return Fail(UnexpectedEnd, pos);
      }
      var next := DecodeOne(text, pos);
      if next.None? {
        return Fail(InvalidUtf8, pos);
      }
      PositionNext(text, 0, pos, 1, 1);
      pos := next.value.next;
      if next.value.character == NEWLINE {
        line := line + 1;
        column := 1;
      } else {
        column := column + 1;
      }
      return Ok(next.value.character, pos);
    }

    method ExpectAscii(expected: Byte, cause: Cause) returns (r: Result<()>)
      requires Located() && pos <= |text| && expected <= 0x7F
      modifies this
      ensures Located() && pos <= |text| && r == Expect(text, old(pos), expected, cause) && pos == r.at
    {
      if pos >= |text| || text[pos] != expected {
        return Fail(cause, pos);
      }
      AsciiDecodes(text, pos);
      var a := AdvanceOne();
      return Ok((), pos);
    }

    lemma AsciiDecodes(text: Bytes, pos: nat)
      requires pos < |text| && text[pos] <= 0x7F
      ensures Decode(text, pos) == Some(Decoded(text[pos], pos + 1))
    {
      assert text[pos..pos + 1] == [text[pos]];
    }

    method SkipWhitespace() returns (r: Result<()>)
      requires Located() && pos <= |text|
      modifies this
      ensures Located() && pos <= |text| && r == SkipSpace(text, old(pos)) && pos == r.at
    {
      while pos < |text|
        invariant Located() && old(pos) <= pos
        invariant SkipSpace(text, old(pos)) == SkipSpace(text, pos)
        decreases |text| - pos
      {
        var ch :- PeekOne();
        if !IsSpace(ch) {
          break;
        }
        var a := AdvanceOne();
      }
      return Ok((), pos);
    }

    method ExpectLiteral(literal: Bytes) returns (r: Result<()>)
      requires Located() && pos <= |text|
      modifies this
      ensures Located() && pos <= |text| && r == Literal(text, old(pos), literal) && pos == r.at
    {
      for i := 0 to |literal|
        invariant Located() && old(pos) <= pos
        invariant Literal(text, old(pos), literal) == Literal(text, pos, literal[i..])
      {
        if pos >= |text| {
          return Fail(InvalidLiteral, pos);
        }
        var ch :- AdvanceOne();
        if ch != literal[i] {
          return Fail(InvalidLiteral, pos);
        }
        assert literal[i..][1..] == literal[i + 1..];
      }
      return Ok((), pos);
    }

    method ParseHex4() returns (r: Result<nat>)
      requires Located() && pos <= |text|
      modifies this
      ensures Located() && pos <= |text| && r == Hex(text, old(pos), 4, 0) && pos == r.at
    {
      hide Located, Advance, Peek, Hex, HexValue;
      var value: nat := 0;
      for i := 0 to 4
        invariant Located() && pos <= |text|
        invariant Hex(text, old(pos), 4, 0) == Hex(text, pos, 4 - i, value)
      {
        HexStep(text, pos, 4 - i, value);
        if pos >= |text| {
          return Fail(IncompleteUnicode, pos);
        }
        var digit :- AdvanceOne();
        value := value * 16;
        if digit >= 0x30 && digit <= 0x39 {
          value := value + (digit - 0x30);
        } else if digit >= 0x61 && digit <= 0x66 {
          value := value + (digit - 0x61 + 10);
        } else if digit >= 0x41 && digit <= 0x46 {
          value := value + (digit - 0x41 + 10);
        } else {
          return Fail(HexDigitExpected, pos);
        }
      }
      HexEnd(text, pos, value);
      return Ok(value, pos);
    }

    method ParseUnicode() returns (r: Result<int>)
      requires Located() && pos <= |text|
      modifies this
      ensures Located() && pos <= |text| && r == Unicode(text, old(pos)) && pos == r.at
    {
      hide Located, Hex, Expect;
      var code :- ParseHex4();
      if code >= 0xD800 && code <= 0xDBFF {
        var _ :- ExpectAscii(BACKSLASH, LoneHighSurrogate);
        var _ :- ExpectAscii(0x75, LoneHighSurrogate);
        var low :- ParseHex4();
        if low < 0xDC00 || low > 0xDFFF {
          return Fail(InvalidLowSurrogate, pos);
        }
        return Ok(0x10000 + (code - 0xD800) * 1024 + (low - 0xDC00), pos);
      } else if code >= 0xDC00 && code <= 0xDFFF {
        return Fail(LoneLowSurrogate, pos);
      }
      return Ok(code, pos);
    }

    method ParseString() returns (r: Result<Bytes>)
      requires Located() && pos <= |text|
      modifies this
      ensures Located() && pos <= |text| && r == String(text, old(pos)) && pos == r.at
    {
      hide Located, Expect, Peek, Advance, Unicode, Unescaped, Encode;
      var _ :- ExpectAscii(QUOTE, StringExpected);
      var out: Bytes := [];
      while true
        invariant Located() && pos <= |text|
        invariant String(text, old(pos)) == StringBody(text, pos, out)
        decreases |text| - pos
      {
        if pos >= |text| {
          return Fail(UnterminatedString, pos);
        }
        var ch :- PeekOne();
        if ch == QUOTE {
          var _ := AdvanceOne();
          break;
        }
        if ch == BACKSLASH {
          var _ := AdvanceOne();
          if pos >= |text| {
            return Fail(IncompleteEscape, pos);
          }
          var escape :- AdvanceOne();
          if Unescaped(escape).Some? {
            out := out + [Unescaped(escape).value];
          } else if escape == 0x75 {
            UnicodeIsScalarIfOk(text, pos);
            var code :- ParseUnicode();
            var encoded := EncodeCharacter(code);
            out := out + encoded;
          } else {
            return Fail(InvalidEscape, pos);
          }
        } else if ch < 0x20 {
          return Fail(ControlCharacter, pos);
        } else {
          var start := pos;
          var _ := AdvanceOne();
          out := out + text[start..pos];
        }
      }
      return Ok(out, pos);
    }

    method SkipDigits() returns (r: Result<()>)
      requires Located() && pos <= |text|
      modifies this
      ensures Located() && pos <= |text| && r == Digits(text, old(pos)) && pos == r.at
    {
      hide Located, Peek, Advance;
      while pos < |text|
        invariant Located() && pos <= |text|
        invariant Digits(text, old(pos)) == Digits(text, pos)
        decreases |text| - pos
      {
        var ch :- PeekOne();
        if !IsDigit(ch) {
          break;
        }
        var _ := AdvanceOne();
      }
      return Ok((), pos);
    }

    /** Whether the next character is one of two. */
    method NextIs(a: int, b: int) returns (r: Result<bool>)
      requires Located() && pos <= |text|
      ensures r == Sees(text, pos, a, b)
    {
      hide Located, Peek;
      if pos >= |text| {
        return Ok(false, pos);
      }
      var ch :- PeekOne();
      return Ok(ch == a || ch == b, pos);
    }

    method ParseSomeDigits(cause: Cause) returns (r: Result<()>)
      requires Located() && pos <= |text|
      modifies this
      ensures Located() && pos <= |text| && r == SomeDigits(text, old(pos), cause) && pos == r.at
    {
      hide Located, Peek, Digits;
      if pos >= |text| {
        return Fail(cause, pos);
      }
      var ch :- PeekOne();
      if !IsDigit(ch) {
        return Fail(cause, pos);
      }
      r := SkipDigits();
    }

    method ParseIntegerPart() returns (r: Result<()>)
      requires Located() && pos <= |text|
      modifies this
      ensures Located() && pos <= |text| && r == IntegerPart(text, old(pos)) && pos == r.at
    {
      hide Located, Peek, Advance, Digits;
      if pos >= |text| {
        return Fail(InvalidNumber, pos);
      }
      var ch :- PeekOne();
      if !IsDigit(ch) {
        return Fail(InvalidNumber, pos);
      }
      if ch == ZERO {
        var _ := AdvanceOne();
        if pos < |text| {
          var next :- PeekOne();
          if IsDigit(next) {
            return Fail(LeadingZero, pos);
          }
        }
        return Ok((), pos);
      }
      r := SkipDigits();
    }

    method ParseFraction() returns (r: Result<bool>)
      requires Located() && pos <= |text|
      modifies this
      ensures Located() && pos <= |text| && r == Fraction(text, old(pos)) && pos == r.at
    {
      SeesIsPeek(text, pos, DOT, DOT);
      hide Located, Sees, Peek, Advance, SomeDigits;
      var dot :- NextIs(DOT, DOT);
      if !dot {
        return Ok(false, pos);
      }
      var _ := AdvanceOne();
      var _ :- ParseSomeDigits(FractionExpected);
      return Ok(true, pos);
    }

    method ParseExponent() returns (r: Result<bool>)
      requires Located() && pos <= |text|
      modifies this
      ensures Located() && pos <= |text| && r == Exponent(text, old(pos)) && pos == r.at
    {
      hide Located, Sees, Peek, Advance, SomeDigits;
      SeesIsPeek(text, pos, 0x65, 0x45);
      var e :- NextIs(0x65, 0x45);
      if !e {
        return Ok(false, pos);
      }
      var _ := AdvanceOne();
      SeesIsPeek(text, pos, PLUS, MINUS);
      var sign :- NextIs(PLUS, MINUS);
      if sign {
        var _ := AdvanceOne();
      }
      var _ :- ParseSomeDigits(ExponentExpected);
      return Ok(true, pos);
    }

    method ParseNumber() returns (r: Result<Json>)
      requires Located() && pos <= |text|
      modifies this
      ensures Located() && pos <= |text| && r == Number(text, old(pos), finite) && pos == r.at
    {
      hide Located, Sees, Peek, Advance, IntegerPart, Fraction, Exponent, ToInt;
      var start := pos;
      SeesIsPeek(text, pos, MINUS, MINUS);
      var sign :- NextIs(MINUS, MINUS);
      if sign {
        var _ := AdvanceOne();
      }
      var _ :- ParseIntegerPart();
      var fraction :- ParseFraction();
      var exponent :- ParseExponent();
      var token := text[start..pos];
      if !fraction && !exponent {
        var parsed := ToInt(token);
        if parsed < MIN_ENTIER || parsed > MAX_ENTIER {
          return Fail(IntegerOutOfRange, pos);
        }
        return Ok(Entier(parsed), pos);
      }
      if !finite(token) {
        return Fail(DecimalOutOfRange, pos);
      }
      return Ok(Decimal(token), pos);
    }

    method ParseValue() returns (r: Result<Json>)
      requires Located() && pos <= |text|
      modifies this
      ensures Located() && pos <= |text| && r == Val(text, old(pos), finite) && pos == r.at
      decreases |text| - pos, 2
    {
      hide Located, SkipSpace, Peek, String, Literal, Number, Obj, Arr;
      var _ :- SkipWhitespace();
      if pos >= |text| {
        return Fail(ValueExpected, pos);
      }
      var ch :- PeekOne();
      if ch == OPEN_BRACE {
        r := ParseObject();
      } else if ch == OPEN_BRACKET {
        r := ParseArray();
      } else if ch == QUOTE {
        var t :- ParseString();
        r := Ok(Texte(t), pos);
      } else if ch == 0x74 {
        var _ :- ExpectLiteral(TRUE_LITERAL);
        r := Ok(Logique(true), pos);
      } else if ch == 0x66 {
        var _ :- ExpectLiteral(FALSE_LITERAL);
        r := Ok(Logique(false), pos);
      } else if ch == 0x6E {
        var _ :- ExpectLiteral(NULL_LITERAL);
        r := Ok(Rien, pos);
      } else if ch == MINUS || IsDigit(ch) {
        r := ParseNumber();
      } else {
        r := Fail(InvalidValue, pos);
      }
    }

    method ParseObject() returns (r: Result<Json>)
      requires Located() && pos <= |text|
      modifies this
      ensures Located() && pos <= |text| && r == Obj(text, old(pos), finite) && pos == r.at
      decreases |text| - pos, 1
    {
      hide Located, SkipSpace, Sees, Expect, Peek, Advance, Members;
      var _ :- ExpectAscii(OPEN_BRACE, ObjectExpected);
      var _ :- SkipWhitespace();
      SeesIsPeek(text, pos, CLOSE_BRACE, CLOSE_BRACE);
      var empty :- NextIs(CLOSE_BRACE, CLOSE_BRACE);
      if empty {
        var _ := AdvanceOne();
        return Ok(Dictionnaire([]), pos);
      }
      r := ParseMembers();
    }

    /** The loop of the object parser. */
    method ParseMembers() returns (r: Result<Json>)
      requires Located() && pos <= |text|
      modifies this
      ensures Located() && pos <= |text| && r == Members(text, old(pos), finite, [], {}) && pos == r.at
      decreases |text| - pos, 0
    {
      hide Located, SkipSpace, Sees, Expect, String, Val, Peek, Advance;
      var entries: seq<Entry> := [];
      var seenKeys: set<Bytes> := {};
      while true
        invariant Located() && old(pos) <= pos <= |text|
        invariant Members(text, old(pos), finite, [], {}) == Members(text, pos, finite, entries, seenKeys)
        decreases |text| - pos
      {
        var _ :- SkipWhitespace();
        var quote :- NextIs(QUOTE, QUOTE);
        if !quote {
          return Fail(KeyExpected, pos);
        }
        var key :- ParseString();
        if key in seenKeys {
          return Fail(DuplicateKey, pos);
        }
        seenKeys := seenKeys + {key};
        var _ :- SkipWhitespace();
        var _ :- ExpectAscii(COLON, ColonExpected);
        var _ :- SkipWhitespace();
        var value :- ParseValue();
        entries := entries + [Entry(key, value)];
        var _ :- SkipWhitespace();
        if pos >= |text| {
          return Fail(UnterminatedObject, pos);
        }
        var next :- PeekOne();
        if next == COMMA {
          var _ := AdvanceOne();
        } else if next == CLOSE_BRACE {
          var _ := AdvanceOne();
          return Ok(Dictionnaire(entries), pos);
        } else {
          return Fail(ObjectSeparatorExpected, pos);
        }
      }
    }

    method ParseArray() returns (r: Result<Json>)
      requires Located() && pos <= |text|
      modifies this
      ensures Located() && pos <= |text| && r == Arr(text, old(pos), finite) && pos == r.at
      decreases |text| - pos, 1
    {
      hide Located, SkipSpace, Sees, Expect, Peek, Advance, Elements;
      var _ :- ExpectAscii(OPEN_BRACKET, ArrayExpected);
      var _ :- SkipWhitespace();
      SeesIsPeek(text, pos, CLOSE_BRACKET, CLOSE_BRACKET);
      var empty :- NextIs(CLOSE_BRACKET, CLOSE_BRACKET);
      if empty {
        var _ := AdvanceOne();
        return Ok(Liste([]), pos);
      }
      r := ParseElements();
    }

    /** The loop of the array parser. */
    method ParseElements() returns (r: Result<Json>)
      requires Located() && pos <= |text|
      modifies this
      ensures Located() && pos <= |text| && r == Elements(text, old(pos), finite, []) && pos == r.at
      decreases |text| - pos, 3
    {
      hide Located, SkipSpace, Val, Peek, Advance;
      var items: seq<Json> := [];
      while true
        invariant Located() && old(pos) <= pos <= |text|
        invariant Elements(text, old(pos), finite, []) == Elements(text, pos, finite, items)
        decreases |text| - pos
      {
        var _ :- SkipWhitespace();
        var value :- ParseValue();
        items := items + [value];
        var _ :- SkipWhitespace();
        if pos >= |text| {
          return Fail(UnterminatedArray, pos);
        }
        var next :- PeekOne();
        if next == COMMA {
          var _ := AdvanceOne();
        } else if next == CLOSE_BRACKET {
          var _ := AdvanceOne();
          return Ok(Liste(items), pos);
        } else {
          return Fail(ArraySeparatorExpected, pos);
        }
      }
    }

    method ParseDocument() returns (r: Result<Json>)
      requires Located() && pos == 0
      modifies this
      ensures Located() && r == Document(text, finite) && pos == r.at
    {
      hide Located, SkipSpace, Val;
      var _ :- SkipWhitespace();
      var value :- ParseValue();
      var _ :- SkipWhitespace();
      if pos < |text| {
        return Fail(TrailingText, pos);
      }
      return Ok(value, pos);
    }
  }

  /** Where a character has been seen, it can be consumed. */
  lemma SeesIsPeek(text: Bytes, pos: nat, a: int, b: int)
    requires pos <= |text|
    ensures Sees(text, pos, a, b).Ok? && Sees(text, pos, a, b).value ==> pos < |text| && Peek(text, pos).Ok?
  {}

  lemma HexStep(text: Bytes, pos: nat, k: nat, high: nat)
    requires pos <= |text| && 0 < k
    ensures pos >= |text| ==> Hex(text, pos, k, high) == Fail(IncompleteUnicode, pos)
    ensures pos < |text| ==>
              var a := Advance(text, pos);
              if a.Fail? then Hex(text, pos, k, high) == a.PropagateFailure<nat>()
              else if 0x30 <= a.value <= 0x39 then Hex(text, pos, k, high) == Hex(text, a.at, k - 1, high * 16 + (a.value - 0x30))
              else if 0x61 <= a.value <= 0x66 then Hex(text, pos, k, high) == Hex(text, a.at, k - 1, high * 16 + (a.value - 0x61 + 10))
              else if 0x41 <= a.value <= 0x46 then Hex(text, pos, k, high) == Hex(text, a.at, k - 1, high * 16 + (a.value - 0x41 + 10))
              else Hex(text, pos, k, high) == Fail(HexDigitExpected, a.at)
  {}

  lemma HexEnd(text: Bytes, pos: nat, high: nat)
    requires pos <= |text|
    ensures Hex(text, pos, 0, high) == Ok(high, pos)
  {}

  lemma UnicodeIsScalarIfOk(text: Bytes, pos: nat)
    requires pos <= |text|
    ensures Unicode(text, pos).Ok? ==> IsScalar(Unicode(text, pos).value)
  {
    hide Unicode;
    if Unicode(text, pos).Ok? {
      UnicodeIsScalar(text, pos);
    }
  }
}
