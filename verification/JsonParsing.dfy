/** What the JSON parser does with a text from an offset on, as functions: the value
    and where it ends, or the cause of the failure and where it is noticed.
 */
module JsonParsing {
  import opened Numerals
  import opened Utf8

  datatype Entry = Entry(key: Bytes, value: Json)

  /** `Decimal` keeps its token: turning it into a number is not part of this model. */
  datatype Json =
    | Rien
    | Logique(b: bool)
    | Entier(n: int)
    | Decimal(token: Bytes)
    | Texte(text: Bytes)
    | Liste(items: seq<Json>)
    | Dictionnaire(entries: seq<Entry>)

  datatype Cause =
    | InvalidUtf8 | UnexpectedEnd | TrailingText | InvalidLiteral
    | StringExpected | UnterminatedString | IncompleteEscape | InvalidEscape | ControlCharacter
    | IncompleteUnicode | HexDigitExpected | LoneHighSurrogate | InvalidLowSurrogate | LoneLowSurrogate
    | InvalidNumber | LeadingZero | FractionExpected | ExponentExpected | IntegerOutOfRange | DecimalOutOfRange
    | ValueExpected | InvalidValue
    | ObjectExpected | KeyExpected | DuplicateKey | ColonExpected | UnterminatedObject | ObjectSeparatorExpected
    | ArrayExpected | UnterminatedArray | ArraySeparatorExpected

  /** `at` is where the parser stands afterwards. */
  datatype Result<+T> = Ok(value: T, at: nat) | Fail(cause: Cause, at: nat) {
    predicate IsFailure() {
      Fail?
    }

    function PropagateFailure<U>(): Result<U>
      requires Fail?
    {
      Fail(cause, at)
    }

    function Extract(): T
      requires Ok?
    {
      value
    }
  }

  const QUOTE := 0x22
  const BACKSLASH := 0x5C
  const COMMA := 0x2C
  const COLON := 0x3A
  const MINUS := 0x2D
  const PLUS := 0x2B
  const DOT := 0x2E
  const OPEN_BRACKET := 0x5B
  const CLOSE_BRACKET := 0x5D
  const OPEN_BRACE := 0x7B
  const CLOSE_BRACE := 0x7D
  const SPACE := 0x20
  const TAB := 0x09
  const NEWLINE := 0x0A
  const RETURN := 0x0D
  const ZERO := 0x30

  const TRUE_LITERAL: Bytes := [0x74, 0x72, 0x75, 0x65]
  const FALSE_LITERAL: Bytes := [0x66, 0x61, 0x6C, 0x73, 0x65]
  const NULL_LITERAL: Bytes := [0x6E, 0x75, 0x6C, 0x6C]

  const MAX_ENTIER := 0x7FFF_FFFF_FFFF_FFFF
  const MIN_ENTIER := -0x8000_0000_0000_0000

  predicate IsSpace(ch: int) {
    ch == SPACE || ch == TAB || ch == NEWLINE || ch == RETURN
  }

  /** The character an escape other than \u stands for. */
  function Unescaped(ch: int): Option<Byte> {
    if ch == QUOTE then Some(QUOTE)
    else if ch == BACKSLASH then Some(BACKSLASH)
    else if ch == 0x2F then Some(0x2F)
    else if ch == 0x62 then Some(0x08)
    else if ch == 0x66 then Some(0x0C)
    else if ch == 0x6E then Some(0x0A)
    else if ch == 0x72 then Some(0x0D)
    else if ch == 0x74 then Some(0x09)
    else None
  }

  /** The next character, 0 at the end. */
  function Peek(text: Bytes, pos: nat): (r: Result<int>)
    ensures r.at == pos
  {
    if pos >= |text| then Ok(0, pos)
    else match Decode(text, pos)
      case None => Fail(InvalidUtf8, pos)
      case Some(d) => Ok(d.character, pos)
  }

  function Advance(text: Bytes, pos: nat): (r: Result<int>)
    ensures r.Ok? ==> pos < r.at <= |text|
    ensures r.Fail? ==> r.at == pos
  {
    if pos >= |text| then Fail(UnexpectedEnd, pos)
    else match Decode(text, pos)
      case None => Fail(InvalidUtf8, pos)
      case Some(d) => Ok(d.character, d.next)
  }

  function Expect(text: Bytes, pos: nat, expected: Byte, cause: Cause): (r: Result<()>)
    requires expected <= 0x7F
    ensures r.Ok? ==> r.at == pos + 1 <= |text|
    ensures r.Fail? ==> r.at == pos
  {
    if pos >= |text| || text[pos] != expected then Fail(cause, pos)
    else Ok((), pos + 1)
  }

  function SkipSpace(text: Bytes, pos: nat): (r: Result<()>)
    requires pos <= |text|
    ensures pos <= r.at <= |text|
    decreases |text| - pos
  {
    if pos >= |text| then Ok((), pos)
    else
      var p := Peek(text, pos);
      if p.Fail? then p.PropagateFailure()
      else if IsSpace(p.value) then SkipSpace(text, Advance(text, pos).at)
      else Ok((), pos)
  }

  function Literal(text: Bytes, pos: nat, rest: Bytes): (r: Result<()>)
    requires pos <= |text|
    ensures pos <= r.at <= |text|
    decreases |rest|
  {
    if rest == [] then Ok((), pos)
    else if pos >= |text| then Fail(InvalidLiteral, pos)
    else
      var a := Advance(text, pos);
      if a.Fail? then a.PropagateFailure()
      else if a.value != rest[0] then Fail(InvalidLiteral, a.at)
      else Literal(text, a.at, rest[1..])
  }

  /** `k` more hexadecimal digits after those worth `high`. */
  function Hex(text: Bytes, pos: nat, k: nat, high: nat): (r: Result<nat>)
    requires pos <= |text|
    ensures pos <= r.at <= |text|
    decreases k
  {
    if k == 0 then Ok(high, pos)
    else if pos >= |text| then Fail(IncompleteUnicode, pos)
    else
      var a := Advance(text, pos);
      if a.Fail? then a.PropagateFailure()
      else match HexValue(a.value)
        case None => Fail(HexDigitExpected, a.at)
        case Some(d) => Hex(text, a.at, k - 1, high * 16 + d)
  }

  /** What follows \u: one code unit, or two that make one character. */
  function Unicode(text: Bytes, pos: nat): (r: Result<int>)
    requires pos <= |text|
    ensures pos <= r.at <= |text|
  {
    var high := Hex(text, pos, 4, 0);
    if high.Fail? then high.PropagateFailure()
    else if 0xD800 <= high.value <= 0xDBFF then
      var slash := Expect(text, high.at, BACKSLASH, LoneHighSurrogate);
      if slash.Fail? then slash.PropagateFailure() else
      var u := Expect(text, slash.at, 0x75, LoneHighSurrogate);
      if u.Fail? then u.PropagateFailure() else
      var low := Hex(text, u.at, 4, 0);
      if low.Fail? then low.PropagateFailure()
      else if low.value < 0xDC00 || low.value > 0xDFFF then Fail(InvalidLowSurrogate, low.at)
      else Ok(0x10000 + (high.value - 0xD800) * 1024 + (low.value - 0xDC00), low.at)
    else if 0xDC00 <= high.value <= 0xDFFF then Fail(LoneLowSurrogate, high.at)
    else Ok(high.value, high.at)
  }

  /** Four digits make a number below 65536. */
  lemma {:induction false} HexBound(text: Bytes, pos: nat, k: nat, high: nat)
    requires pos <= |text| && k <= 4 && high < Bound(k) && Hex(text, pos, k, high).Ok?
    ensures Hex(text, pos, k, high).value < 0x10000
    decreases k
  {
    if k > 0 {
      var a := Advance(text, pos);
      var d := HexValue(a.value).value;
      assert high * 16 + d < Bound(k - 1);
      HexBound(text, a.at, k - 1, high * 16 + d);
    }
  }

  function Bound(k: nat): nat {
    if k == 0 then 0x10000 else if k == 1 then 0x1000 else if k == 2 then 0x100 else if k == 3 then 0x10 else 1
  }

  lemma UnicodeIsScalar(text: Bytes, pos: nat)
    requires pos <= |text| && Unicode(text, pos).Ok?
    ensures IsScalar(Unicode(text, pos).value)
  {
    HexBound(text, pos, 4, 0);
  }

  /** The rest of a string, `out` being the bytes of what came before. */
  function StringBody(text: Bytes, pos: nat, out: Bytes): (r: Result<Bytes>)
    requires pos <= |text|
    ensures pos <= r.at <= |text|
    decreases |text| - pos
  {
    if pos >= |text| then Fail(UnterminatedString, pos)
    else
      var p := Peek(text, pos);
      if p.Fail? then p.PropagateFailure() else
      var next := Advance(text, pos).at;
      if p.value == QUOTE then Ok(out, next)
      else if p.value == BACKSLASH then
        if next >= |text| then Fail(IncompleteEscape, next) else
        var e := Advance(text, next);
        if e.Fail? then e.PropagateFailure()
        else if Unescaped(e.value).Some? then StringBody(text, e.at, out + [Unescaped(e.value).value])
        else if e.value == 0x75 then
          var u := Unicode(text, e.at);
          if u.Fail? then u.PropagateFailure()
          else
            UnicodeIsScalar(text, e.at);
            StringBody(text, u.at, out + Encode(u.value))
        else Fail(InvalidEscape, e.at)
      else if p.value < 0x20 then Fail(ControlCharacter, pos)
      else StringBody(text, next, out + text[pos..next])
  }

  function String(text: Bytes, pos: nat): (r: Result<Bytes>)
    requires pos <= |text|
    ensures pos <= r.at <= |text|
    ensures r.Ok? ==> pos < r.at
  {
    var q := Expect(text, pos, QUOTE, StringExpected);
    if q.Fail? then q.PropagateFailure() else StringBody(text, q.at, [])
  }

  function Digits(text: Bytes, pos: nat): (r: Result<()>)
    requires pos <= |text|
    ensures pos <= r.at <= |text|
    decreases |text| - pos
  {
    if pos >= |text| then Ok((), pos)
    else
      var p := Peek(text, pos);
      if p.Fail? then p.PropagateFailure()
      else if IsDigit(p.value) then Digits(text, Advance(text, pos).at)
      else Ok((), pos)
  }

  /** At least one digit, or the given cause. */
  function SomeDigits(text: Bytes, pos: nat, cause: Cause): (r: Result<()>)
    requires pos <= |text|
    ensures pos <= r.at <= |text|
  {
    if pos >= |text| then Fail(cause, pos)
    else
      var p := Peek(text, pos);
      if p.Fail? then p.PropagateFailure()
      else if !IsDigit(p.value) then Fail(cause, pos)
      else Digits(text, pos)
  }

  /** Whether the character there is one of two; the end is neither. */
  function Sees(text: Bytes, pos: nat, a: int, b: int): (r: Result<bool>)
    requires pos <= |text|
    ensures r.at == pos
  {
    if pos >= |text| then Ok(false, pos)
    else
      var p := Peek(text, pos);
      if p.Fail? then p.PropagateFailure() else Ok(p.value == a || p.value == b, pos)
  }

  function IntegerPart(text: Bytes, pos: nat): (r: Result<()>)
    requires pos <= |text|
    ensures pos <= r.at <= |text|
  {
    if pos >= |text| then Fail(InvalidNumber, pos)
    else
      var p := Peek(text, pos);
      if p.Fail? then p.PropagateFailure()
      else if !IsDigit(p.value) then Fail(InvalidNumber, pos)
      else if p.value == ZERO then
        var next := Advance(text, pos).at;
        if next >= |text| then Ok((), next)
        else
          var q := Peek(text, next);
          if q.Fail? then q.PropagateFailure()
          else if IsDigit(q.value) then Fail(LeadingZero, next)
          else Ok((), next)
      else Digits(text, pos)
  }

  /** The fraction, if there is one; the result says whether there was. */
  function Fraction(text: Bytes, pos: nat): (r: Result<bool>)
    requires pos <= |text|
    ensures pos <= r.at <= |text|
  {
    var dot := Sees(text, pos, DOT, DOT);
    if dot.Fail? || !dot.value then dot
    else
      var d := SomeDigits(text, Advance(text, pos).at, FractionExpected);
      if d.Fail? then d.PropagateFailure() else Ok(true, d.at)
  }

  function Exponent(text: Bytes, pos: nat): (r: Result<bool>)
    requires pos <= |text|
    ensures pos <= r.at <= |text|
  {
    var e := Sees(text, pos, 0x65, 0x45);
    if e.Fail? || !e.value then e
    else
      var after := Advance(text, pos).at;
      var sign := Sees(text, after, PLUS, MINUS);
      if sign.Fail? then sign else
      var start := if sign.value then Advance(text, after).at else after;
      var d := SomeDigits(text, start, ExponentExpected);
      if d.Fail? then d.PropagateFailure() else Ok(true, d.at)
  }

  /** The number a token of digits with an optional minus sign is. */
  function ToInt(token: Bytes): int {
    if token != [] && token[0] == MINUS then -Natural(token[1..]) else Natural(token)
  }

  /** `finite` says which decimal tokens a double can hold. */
  function Number(text: Bytes, pos: nat, finite: Bytes -> bool): (r: Result<Json>)
    requires pos <= |text|
    ensures pos <= r.at <= |text|
  {
    var sign := Sees(text, pos, MINUS, MINUS);
    if sign.Fail? then sign.PropagateFailure() else
    var i := IntegerPart(text, if sign.value then Advance(text, pos).at else pos);
    if i.Fail? then i.PropagateFailure() else
    var f := Fraction(text, i.at);
    if f.Fail? then f.PropagateFailure() else
    var e := Exponent(text, f.at);
    if e.Fail? then e.PropagateFailure() else
    var token := text[pos..e.at];
    if !f.value && !e.value then
      if MIN_ENTIER <= ToInt(token) <= MAX_ENTIER then Ok(Entier(ToInt(token)), e.at)
      else Fail(IntegerOutOfRange, e.at)
    else if finite(token) then Ok(Decimal(token), e.at)
    else Fail(DecimalOutOfRange, e.at)
  }

  function Val(text: Bytes, pos: nat, finite: Bytes -> bool): (r: Result<Json>)
    requires pos <= |text|
    ensures pos <= r.at <= |text|
    decreases |text| - pos, 2
  {
    var s := SkipSpace(text, pos);
    if s.Fail? then s.PropagateFailure()
    else if s.at >= |text| then Fail(ValueExpected, s.at)
    else
      var p := Peek(text, s.at);
      if p.Fail? then p.PropagateFailure()
      else if p.value == OPEN_BRACE then Obj(text, s.at, finite)
      else if p.value == OPEN_BRACKET then Arr(text, s.at, finite)
      else if p.value == QUOTE then
        var t := String(text, s.at);
        if t.Fail? then t.PropagateFailure() else Ok(Texte(t.value), t.at)
      else if p.value == 0x74 then
        var l := Literal(text, s.at, TRUE_LITERAL);
        if l.Fail? then l.PropagateFailure() else Ok(Logique(true), l.at)
      else if p.value == 0x66 then
        var l := Literal(text, s.at, FALSE_LITERAL);
        if l.Fail? then l.PropagateFailure() else Ok(Logique(false), l.at)
      else if p.value == 0x6E then
        var l := Literal(text, s.at, NULL_LITERAL);
        if l.Fail? then l.PropagateFailure() else Ok(Rien, l.at)
      else if p.value == MINUS || IsDigit(p.value) then Number(text, s.at, finite)
      else Fail(InvalidValue, s.at)
  }

  /** An object from its opening brace on. */
  function Obj(text: Bytes, pos: nat, finite: Bytes -> bool): (r: Result<Json>)
    requires pos <= |text|
    ensures pos <= r.at <= |text|
    decreases |text| - pos, 1
  {
    var b := Expect(text, pos, OPEN_BRACE, ObjectExpected);
    if b.Fail? then b.PropagateFailure() else
    var s := SkipSpace(text, b.at);
    if s.Fail? then s.PropagateFailure() else
    var empty := Sees(text, s.at, CLOSE_BRACE, CLOSE_BRACE);
    if empty.Fail? then empty.PropagateFailure()
    else if empty.value then Ok(Dictionnaire([]), Advance(text, s.at).at)
    else Members(text, s.at, finite, [], {})
  }

  /** The members left to read, after those in `entries`, whose keys are `seen`. */
  function Members(text: Bytes, pos: nat,
            finite: Bytes -> bool, entries: seq<Entry>, seen: set<Bytes>): (r: Result<Json>)
    requires pos <= |text|
    ensures pos <= r.at <= |text|
    decreases |text| - pos, 0
  {
    var s := SkipSpace(text, pos);
    if s.Fail? then s.PropagateFailure() else
    var quote := Sees(text, s.at, QUOTE, QUOTE);
    if quote.Fail? then quote.PropagateFailure()
    else if !quote.value then Fail(KeyExpected, s.at) else
    var key := String(text, s.at);
    if key.Fail? then key.PropagateFailure()
    else if key.value in seen then Fail(DuplicateKey, key.at) else
    var s2 := SkipSpace(text, key.at);
    if s2.Fail? then s2.PropagateFailure() else
    var colon := Expect(text, s2.at, COLON, ColonExpected);
    if colon.Fail? then colon.PropagateFailure() else
    var s3 := SkipSpace(text, colon.at);
    if s3.Fail? then s3.PropagateFailure() else
    var v := Val(text, s3.at, finite);
    if v.Fail? then v else
    var s4 := SkipSpace(text, v.at);
    if s4.Fail? then s4.PropagateFailure()
    else if s4.at >= |text| then Fail(UnterminatedObject, s4.at) else
    var p := Peek(text, s4.at);
    if p.Fail? then p.PropagateFailure()
    else if p.value == COMMA then
      Members(text, Advance(text, s4.at).at, finite, entries + [Entry(key.value, v.value)], seen + {key.value})
    else if p.value == CLOSE_BRACE then
      Ok(Dictionnaire(entries + [Entry(key.value, v.value)]), Advance(text, s4.at).at)
    else Fail(ObjectSeparatorExpected, s4.at)
  }

  /** An array from its opening bracket on. */
  function Arr(text: Bytes, pos: nat, finite: Bytes -> bool): (r: Result<Json>)
    requires pos <= |text|
    ensures pos <= r.at <= |text|
    decreases |text| - pos, 1
  {
    var b := Expect(text, pos, OPEN_BRACKET, ArrayExpected);
    if b.Fail? then b.PropagateFailure() else
    var s := SkipSpace(text, b.at);
    if s.Fail? then s.PropagateFailure() else
    var empty := Sees(text, s.at, CLOSE_BRACKET, CLOSE_BRACKET);
    if empty.Fail? then empty.PropagateFailure()
    else if empty.value then Ok(Liste([]), Advance(text, s.at).at)
    else Elements(text, s.at, finite, [])
  }

  function Elements(text: Bytes, pos: nat, finite: Bytes -> bool, items: seq<Json>): (r: Result<Json>)
    requires pos <= |text|
    ensures pos <= r.at <= |text|
    decreases |text| - pos, 3
  {
    var s := SkipSpace(text, pos);
    if s.Fail? then s.PropagateFailure() else
    var v := Val(text, s.at, finite);
    if v.Fail? then v else
    var s2 := SkipSpace(text, v.at);
    if s2.Fail? then s2.PropagateFailure()
    else if s2.at >= |text| then Fail(UnterminatedArray, s2.at) else
    var p := Peek(text, s2.at);
    if p.Fail? then p.PropagateFailure()
    else if p.value == COMMA then Elements(text, Advance(text, s2.at).at, finite, items + [v.value])
    else if p.value == CLOSE_BRACKET then Ok(Liste(items + [v.value]), Advance(text, s2.at).at)
    else Fail(ArraySeparatorExpected, s2.at)
  }

  function Document(text: Bytes, finite: Bytes -> bool): (r: Result<Json>) {
    var s := SkipSpace(text, 0);
    if s.Fail? then s.PropagateFailure() else
    var v := Val(text, s.at, finite);
    if v.Fail? then v else
    var t := SkipSpace(text, v.at);
    if t.Fail? then t.PropagateFailure()
    else if t.at < |text| then Fail(TrailingText, t.at)
    else Ok(v.value, t.at)
  }
}
