/** UTF-8 text as a sequence of scalar values. The reference is RFC 3629: section 4
    gives the byte sequences, section 3 the number each stands for.
 */
module Utf8 {

  type Byte = b: int | 0 <= b < 256
  type Bytes = seq<Byte>

  datatype Option<+T> = None | Some(value: T)

  /** A character and where the next one starts. */
  datatype Decoded = Decoded(character: int, next: nat)

  predicate IsScalar(c: int) {
    0 <= c <= 0x10FFFF && !(0xD800 <= c <= 0xDFFF)
  }

  // The reference: the grammar of section 4 of RFC 3629, and the value of a sequence

  predicate Tail(b: Byte) {
    0x80 <= b <= 0xBF
  }

  predicate IsChar(s: Bytes) {
    || (|s| == 1 && s[0] <= 0x7F)
    || (|s| == 2 && 0xC2 <= s[0] <= 0xDF && Tail(s[1]))
    || (|s| == 3 && Tail(s[1]) && Tail(s[2])
        && (|| (s[0] == 0xE0 && 0xA0 <= s[1])
            || 0xE1 <= s[0] <= 0xEC
            || (s[0] == 0xED && s[1] <= 0x9F)
            || 0xEE <= s[0] <= 0xEF))
    || (|s| == 4 && Tail(s[1]) && Tail(s[2]) && Tail(s[3])
        && (|| (s[0] == 0xF0 && 0x90 <= s[1])
            || 0xF1 <= s[0] <= 0xF3
            || (s[0] == 0xF4 && s[1] <= 0x8F)))
  }

  /** A tail byte adds six bits. */
  function Six(high: int, b: Byte): int {
    high * 64 + b % 64
  }

  function ScalarOf(s: Bytes): int
    requires IsChar(s)
  {
    if |s| == 1 then s[0]
    else if |s| == 2 then Six(s[0] % 32, s[1])
    else if |s| == 3 then Six(Six(s[0] % 16, s[1]), s[2])
    else Six(Six(Six(s[0] % 8, s[1]), s[2]), s[3])
  }

  /** The sequence of a scalar value, bits taken from the number by division. */
  function Encode(c: int): Bytes
    requires IsScalar(c)
  {
    if c <= 0x7F then [c]
    else if c <= 0x7FF then [0xC0 + c / 64, 0x80 + c % 64]
    else if c <= 0xFFFF then [0xE0 + c / 4096, 0x80 + c / 64 % 64, 0x80 + c % 64]
    else [0xF0 + c / 262144, 0x80 + c / 4096 % 64, 0x80 + c / 64 % 64, 0x80 + c % 64]
  }

  /** The two directions: `Encode` and `ScalarOf` are inverse bijections between the
      scalar values and the sequences of the grammar. */
  lemma EncodedIsChar(c: int)
    requires IsScalar(c)
    ensures IsChar(Encode(c)) && ScalarOf(Encode(c)) == c
  {
    if 0x7F < c <= 0x7FF {
      SixOf(c);
    } else if 0x7FF < c <= 0xFFFF {
      Encoded3(c);
    } else if 0xFFFF < c {
      Encoded4(c);
    }
  }

  lemma CharIsEncoded(s: Bytes)
    requires IsChar(s)
    ensures IsScalar(ScalarOf(s)) && Encode(ScalarOf(s)) == s
  {
    hide IsChar, ScalarOf, IsScalar, Encode;
    CharHasBytes(s);
    if |s| == 1 {
      Char1(s[0]);
    } else if |s| == 2 {
      Char2(s[0], s[1]);
    } else if |s| == 3 {
      Char3(s[0], s[1], s[2]);
    } else {
      Char4(s[0], s[1], s[2], s[3]);
    }
  }

  lemma CharHasBytes(s: Bytes)
    requires IsChar(s)
    ensures 1 <= |s| <= 4
    ensures |s| == 1 ==> s == [s[0]]
    ensures |s| == 2 ==> s == [s[0], s[1]]
    ensures |s| == 3 ==> s == [s[0], s[1], s[2]]
    ensures |s| == 4 ==> s == [s[0], s[1], s[2], s[3]]
  {}

  lemma Char1(a: Byte)
    requires IsChar([a])
    ensures IsScalar(ScalarOf([a])) && Encode(ScalarOf([a])) == [a]
  {}

  lemma Char2(a: Byte, b: Byte)
    requires IsChar([a, b])
    ensures IsScalar(ScalarOf([a, b])) && Encode(ScalarOf([a, b])) == [a, b]
  {
    SixSplits(a % 32, b);
  }

  lemma Char3(a: Byte, b: Byte, d: Byte)
    requires IsChar([a, b, d])
    ensures IsScalar(ScalarOf([a, b, d])) && Encode(ScalarOf([a, b, d])) == [a, b, d]
  {
    Parts3(a, b, d);
    hide IsChar, ScalarOf;
  }

  lemma Char4(a: Byte, b: Byte, d: Byte, e: Byte)
    requires IsChar([a, b, d, e])
    ensures IsScalar(ScalarOf([a, b, d, e])) && Encode(ScalarOf([a, b, d, e])) == [a, b, d, e]
  {
    Parts4(a, b, d, e);
    hide IsChar, ScalarOf;
  }

  lemma SixOf(c: int)
    requires 0 <= c
    ensures Six(c / 64, 0x80 + c % 64) == c
  {}

  lemma SixSplits(high: int, b: Byte)
    requires 0 <= high && Tail(b)
    ensures Six(high, b) / 64 == high && 0x80 + Six(high, b) % 64 == b
  {}

  lemma Encoded3(c: int)
    requires 0x7FF < c <= 0xFFFF && IsScalar(c)
    ensures IsChar(Encode(c)) && ScalarOf(Encode(c)) == c
  {
    var high := c / 64;
    assert c / 4096 == high / 64 && (0xE0 + c / 4096) % 16 == c / 4096;
    SixOf(c);
    SixOf(high);
  }

  lemma Encoded4(c: int)
    requires 0xFFFF < c <= 0x10FFFF
    ensures IsChar(Encode(c)) && ScalarOf(Encode(c)) == c
  {
    var k := c / 64;
    var h := k / 64;
    assert c / 4096 == h && c / 262144 == h / 64 && (0xF0 + h / 64) % 8 == h / 64;
    SixOf(c);
    SixOf(k);
    SixOf(h);
  }

  lemma Parts3(a: Byte, b: Byte, d: Byte)
    requires IsChar([a, b, d])
    ensures var c := ScalarOf([a, b, d]);
            0x7FF < c <= 0xFFFF && IsScalar(c)
            && 0xE0 + c / 4096 == a && 0x80 + c / 64 % 64 == b && 0x80 + c % 64 == d
  {
    var h := Six(a % 16, b);
    SixSplits(a % 16, b);
    SixSplits(h, d);
    assert Six(h, d) / 4096 == h / 64;
  }

  lemma Parts4(a: Byte, b: Byte, d: Byte, e: Byte)
    requires IsChar([a, b, d, e])
    ensures var c := ScalarOf([a, b, d, e]);
            0xFFFF < c <= 0x10FFFF
            && 0xF0 + c / 262144 == a && 0x80 + c / 4096 % 64 == b && 0x80 + c / 64 % 64 == d && 0x80 + c % 64 == e
  {
    var h := Six(a % 8, b);
    var k := Six(h, d);
    SixSplits(a % 8, b);
    SixSplits(h, d);
    SixSplits(k, e);
    var c := Six(k, e);
    assert c / 64 == k && c / 4096 == h && c / 262144 == h / 64;
  }

  /** What decoding at an offset gives: the first bytes must be a sequence of the
      grammar, whose length the first byte fixes. */
  function Width(first: Byte): nat {
    if first <= 0x7F then 1 else if first < 0xC0 then 0 else if first <= 0xDF then 2
    else if first <= 0xEF then 3 else if first <= 0xF7 then 4 else 0
  }

  function Decode(text: Bytes, offset: nat): Option<Decoded> {
    if offset >= |text| then None
    else
      var w := Width(text[offset]);
      if w == 0 || offset + w > |text| || !IsChar(text[offset..offset + w]) then None
      else Some(Decoded(ScalarOf(text[offset..offset + w]), offset + w))
  }

  /** Decoding succeeds exactly when some sequence of the grammar starts there, and
      there is at most one. */
  lemma DecodeIsExact(text: Bytes, offset: nat, w: nat)
    requires offset + w <= |text| && IsChar(text[offset..offset + w])
    ensures Decode(text, offset) == Some(Decoded(ScalarOf(text[offset..offset + w]), offset + w))
  {
    assert text[offset..offset + w][0] == text[offset];
  }

  // The decoder and the encoder

  /** The payload of the leading byte of a sequence of `w` bytes. */
  function Lead(first: Byte, w: nat): int {
    if w == 1 then first else if w == 2 then first % 32 else if w == 3 then first % 16 else first % 8
  }

  /** The value after the leading byte and the first `i - 1` tail bytes. */
  function Gathered(s: Bytes, w: nat, i: nat): int
    requires 1 <= i <= |s|
  {
    if i == 1 then Lead(s[0], w) else Six(Gathered(s, w, i - 1), s[i - 1])
  }

  /** The checks made at the end leave exactly the sequences of the grammar. */
  lemma ChecksAreExact(s: Bytes)
    requires s != [] && |s| == Width(s[0]) && forall k | 1 <= k < |s| :: Tail(s[k])
    ensures var w, value := |s|, Gathered(s, |s|, |s|);
            var rejected := || (w == 2 && value < 0x80) || (w == 3 && value < 0x800) || (w == 4 && value < 0x10000)
                            || value > 0x10FFFF || 0xD800 <= value <= 0xDFFF;
            (IsChar(s) <==> !rejected) && (IsChar(s) ==> ScalarOf(s) == value)
  {
    hide IsChar, ScalarOf, Gathered;
    if |s| == 1 {
      Checks1(s);
    } else if |s| == 2 {
      Checks2(s);
    } else if |s| == 3 {
      Checks3(s);
    } else {
      Checks4(s);
    }
  }

  lemma Checks1(s: Bytes)
    requires |s| == 1 == Width(s[0])
    ensures IsChar(s) && ScalarOf(s) == Gathered(s, 1, 1) == s[0]
  {}

  lemma Checks2(s: Bytes)
    requires |s| == 2 == Width(s[0]) && Tail(s[1])
    ensures var value := Gathered(s, 2, 2);
            value <= 0x7FF && (IsChar(s) <==> value >= 0x80) && (IsChar(s) ==> ScalarOf(s) == value)
  {
    assert Gathered(s, 2, 1) == Lead(s[0], 2);
  }

  lemma TailBits(b: Byte)
    requires Tail(b)
    ensures b % 64 == b - 0x80
  {}

  lemma Checks3(s: Bytes)
    requires |s| == 3 == Width(s[0]) && Tail(s[1]) && Tail(s[2])
    ensures var value := Gathered(s, 3, 3);
            value <= 0xFFFF && (IsChar(s) <==> value >= 0x800 && !(0xD800 <= value <= 0xDFFF)) && (IsChar(s) ==> ScalarOf(s) == value)
  {
    TailBits(s[1]);
    TailBits(s[2]);
    var a: int, b: int, c: int := s[0] - 0xE0, s[1] - 0x80, s[2] - 0x80;
    assert Gathered(s, 3, 1) == a;
    assert Gathered(s, 3, 2) == a * 64 + b;
    assert Gathered(s, 3, 3) == a * 4096 + b * 64 + c;
    hide Gathered;
  }

  lemma Checks4(s: Bytes)
    requires |s| == 4 == Width(s[0]) && Tail(s[1]) && Tail(s[2]) && Tail(s[3])
    ensures var value := Gathered(s, 4, 4);
            (IsChar(s) <==> 0x10000 <= value <= 0x10FFFF) && (IsChar(s) ==> ScalarOf(s) == value)
  {
    TailBits(s[1]);
    TailBits(s[2]);
    TailBits(s[3]);
    var a: int, b: int, c: int, d: int := s[0] - 0xF0, s[1] - 0x80, s[2] - 0x80, s[3] - 0x80;
    assert Gathered(s, 4, 1) == a;
    assert Gathered(s, 4, 2) == a * 64 + b;
    assert Gathered(s, 4, 3) == a * 4096 + b * 64 + c;
    assert Gathered(s, 4, 4) == a * 262144 + b * 4096 + c * 64 + d;
    hide Gathered;
  }

  /** The bit masks of the decoder are written as divisions: `first / 32 == 6` says
      that the leading bits are 110, and so on. */
  method DecodeOne(text: Bytes, offset: nat) returns (r: Option<Decoded>)
    ensures r == Decode(text, offset)
  {
    if offset >= |text| {
      return None;
    }
    var first := text[offset];
    var width: nat;
    var value: int;
    if first <= 0x7F {
      width, value := 1, first;
    } else if first / 32 == 6 {
      width, value := 2, first % 32;
    } else if first / 16 == 14 {
      width, value := 3, first % 16;
    } else if first / 8 == 30 {
      width, value := 4, first % 8;
    } else {
      return None;
    }
    if offset + width > |text| {
      return None;
    }
    ghost var s := text[offset..offset + width];
    for i := 1 to width
      invariant value == Gathered(s, width, i)
      invariant forall k | 1 <= k < i :: Tail(s[k])
    {
      var byte := text[offset + i];
      if byte / 64 != 2 {
        assert !Tail(s[i]);
        return None;
      }
      value := value * 64 + byte % 64;
    }
    ChecksAreExact(s);
    if (width == 2 && value < 0x80) || (width == 3 && value < 0x800) || (width == 4 && value < 0x10000)
       || value > 0x10FFFF || (value >= 0xD800 && value <= 0xDFFF)
    {
      return None;
    }
    return Some(Decoded(value, offset + width));
  }

  method EncodeCharacter(character: int) returns (result: Bytes)
    requires IsScalar(character)
    ensures result == Encode(character)
  {
    result := [];
    if character <= 0x7F {
      result := result + [character];
    } else if character <= 0x7FF {
      result := result + [0xC0 + character / 64 % 32];
      result := result + [0x80 + character % 64];
    } else if character <= 0xFFFF {
      result := result + [0xE0 + character / 4096 % 16];
      result := result + [0x80 + character / 64 % 64];
      result := result + [0x80 + character % 64];
    } else {
      result := result + [0xF0 + character / 262144 % 8];
      result := result + [0x80 + character / 4096 % 64];
      result := result + [0x80 + character / 64 % 64];
      result := result + [0x80 + character % 64];
    }
  }

  // Whole texts

  predicate AllScalars(s: seq<int>) {
    forall k | 0 <= k < |s| :: IsScalar(s[k])
  }

  function EncodeText(s: seq<int>): Bytes
    requires AllScalars(s)
  {
    if s == [] then [] else Encode(s[0]) + EncodeText(s[1..])
  }

  /** The characters from an offset on, or nothing when some byte is out of place. */
  function Characters(text: Bytes, offset: nat): Option<seq<int>>
    decreases |text| - offset
  {
    if offset >= |text| then Some([])
    else match Decode(text, offset)
      case None => None
      case Some(d) =>
        match Characters(text, d.next)
        case None => None
        case Some(rest) => Some([d.character] + rest)
  }

  /** A text is well formed when it is the encoding of some characters. */
  predicate ValidText(text: Bytes) {
    Characters(text, 0).Some?
  }

  /** Encoded characters decode to themselves, wherever they stand. */
  lemma {:induction false} EncodedTextDecodes(before: Bytes, s: seq<int>)
    requires AllScalars(s)
    ensures Characters(before + EncodeText(s), |before|) == Some(s)
    decreases |s|
  {
    hide Decode, Encode;
    if s != [] {
      var text := before + EncodeText(s);
      DecodeEncoded(before, s[0], EncodeText(s[1..]));
      assert text == before + Encode(s[0]) + EncodeText(s[1..]);
      EncodedTextDecodes(before + Encode(s[0]), s[1..]);
      assert [s[0]] + s[1..] == s;
    }
  }

  lemma DecodeEncoded(before: Bytes, c: int, after: Bytes)
    requires IsScalar(c)
    ensures Decode(before + Encode(c) + after, |before|) == Some(Decoded(c, |before| + |Encode(c)|))
    ensures Encode(c) != []
  {
    EncodedIsChar(c);
    var text, e := before + Encode(c) + after, Encode(c);
    assert text[|before|..|before| + |e|] == e;
    DecodeIsExact(text, |before|, |e|);
  }

  /** A text that decodes is the encoding of what it decodes to: with the lemma above,
      decoding and encoding whole texts are inverse bijections. */
  lemma {:induction false} DecodedTextEncodes(text: Bytes, offset: nat)
    requires offset <= |text| && Characters(text, offset).Some?
    ensures AllScalars(Characters(text, offset).value)
    ensures EncodeText(Characters(text, offset).value) == text[offset..]
    decreases |text| - offset
  {
    if offset < |text| {
      var d := Decode(text, offset).value;
      CharIsEncoded(text[offset..d.next]);
      DecodedTextEncodes(text, d.next);
      var s := Characters(text, offset).value;
      assert s[1..] == Characters(text, d.next).value;
      assert text[offset..] == text[offset..d.next] + text[d.next..];
    }
  }

  /** The whole text must be exactly one character. */
  method DecodeSingleCharacter(text: Bytes) returns (r: Option<int>)
    ensures r == if IsChar(text) then Some(ScalarOf(text)) else None
  {
    var next := DecodeOne(text, 0);
    assert text[0..|text|] == text;
    if IsChar(text) {
      DecodeIsExact(text, 0, |text|);
    }
    if next.None? || next.value.next != |text| {
      return None;
    }
    return Some(next.value.character);
  }

  /** What indexing from an offset on finds: the character, unless the text ends or
      goes wrong before it. */
  function NthCharacter(text: Bytes, offset: nat, index: nat): Option<int>
    decreases index
  {
    match Decode(text, offset)
    case None => None
    case Some(d) => if index == 0 then Some(d.character) else NthCharacter(text, d.next, index - 1)
  }

  method CharacterAt(text: Bytes, index: nat) returns (r: Option<int>)
    ensures r == NthCharacter(text, 0, index)
  {
    var offset, current := 0, 0;
    while offset < |text|
      invariant current <= index && NthCharacter(text, 0, index) == NthCharacter(text, offset, index - current)
      decreases |text| - offset
    {
      var next := DecodeOne(text, offset);
      if next.None? {
        return None;
      }
      if current == index {
        return Some(next.value.character);
      }
      offset := next.value.next;
      current := current + 1;
    }
    return None;
  }

  method CharacterCount(text: Bytes) returns (r: Option<nat>)
    ensures r == match Characters(text, 0) { case None => None case Some(s) => Some(|s|) }
  {
    var offset, count := 0, 0;
    while offset < |text|
      invariant Characters(text, 0).None? <==> Characters(text, offset).None?
      invariant Characters(text, 0).Some? ==> |Characters(text, 0).value| == count + |Characters(text, offset).value|
      decreases |text| - offset
    {
      var next := DecodeOne(text, offset);
      if next.None? {
        return None;
      }
      offset := next.value.next;
      count := count + 1;
    }
    return Some(count);
  }

  /** On encoded text, indexing is indexing the characters. */
  lemma {:induction false} AtIsIndex(before: Bytes, s: seq<int>, index: nat)
    requires AllScalars(s)
    ensures NthCharacter(before + EncodeText(s), |before|, index) == if index < |s| then Some(s[index]) else None
    decreases |s|
  {
    hide Encode, Decode, IsChar;
    if s == [] {
      NothingAtEnd(before);
    } else {
      DecodeEncoded(before, s[0], EncodeText(s[1..]));
      assert before + EncodeText(s) == before + Encode(s[0]) + EncodeText(s[1..]);
      if index > 0 {
        AtIsIndex(before + Encode(s[0]), s[1..], index - 1);
      }
    }
  }

  lemma NothingAtEnd(text: Bytes)
    ensures Decode(text + [], |text|) == None
  {}

  // Order

  /** Lexicographic order, as comparing two strings of the standard library gives. */
  predicate Less(a: seq<int>, b: seq<int>) {
    if b == [] then false
    else if a == [] then true
    else a[0] < b[0] || (a[0] == b[0] && Less(a[1..], b[1..]))
  }

  lemma {:induction false} LessAfterCommon(p: seq<int>, a: seq<int>, b: seq<int>)
    ensures Less(p + a, p + b) == Less(a, b)
    decreases |p|
  {
    if p == [] {
      assert p + a == a && p + b == b;
    } else {
      assert (p + a)[1..] == p[1..] + a && (p + b)[1..] == p[1..] + b;
      LessAfterCommon(p[1..], a, b);
    }
  }

  /** Sequences that differ at some first place are ordered by it, whatever follows. */
  lemma {:induction false} LessAt(a: seq<int>, b: seq<int>, k: nat)
    requires k < |a| && k < |b| && a[..k] == b[..k] && a[k] != b[k]
    ensures Less(a, b) == (a[k] < b[k])
  {
    assert a == a[..k] + a[k..] && b == b[..k] + b[k..];
    LessAfterCommon(a[..k], a[k..], b[k..]);
  }

  /** Where the encodings of two characters first differ, they differ as the
      characters do. */
  lemma EncodeIsMonotone(c: int, d: int) returns (k: nat)
    requires IsScalar(c) && IsScalar(d) && c < d
    ensures k < |Encode(c)| && k < |Encode(d)|
    ensures Encode(c)[..k] == Encode(d)[..k] && Encode(c)[k] < Encode(d)[k]
  {
    FirstByte(c);
    FirstByte(d);
    if |Encode(c)| != |Encode(d)| {
      k := 0;
    } else {
      k := SameWidth(c, d);
    }
  }

  lemma FirstByte(c: int)
    requires IsScalar(c)
    ensures var e := Encode(c);
            && 1 <= |e| <= 4
            && (|e| == 1 ==> e[0] <= 0x7F && c <= 0x7F)
            && (|e| == 2 ==> 0xC0 <= e[0] <= 0xDF && 0x7F < c <= 0x7FF)
            && (|e| == 3 ==> 0xE0 <= e[0] <= 0xEF && 0x7FF < c <= 0xFFFF)
            && (|e| == 4 ==> 0xF0 <= e[0] && 0xFFFF < c)
  {}

  lemma SameWidth(c: int, d: int) returns (k: nat)
    requires IsScalar(c) && IsScalar(d) && c < d && |Encode(c)| == |Encode(d)|
    ensures k < |Encode(c)|
    ensures Encode(c)[..k] == Encode(d)[..k] && Encode(c)[k] < Encode(d)[k]
  {
    Base64Digits(c, d);
    if c <= 0x7F {
      k := 0;
    } else if c <= 0x7FF {
      k := if c / 64 < d / 64 then 0 else 1;
    } else if c <= 0xFFFF {
      k := if c / 4096 < d / 4096 then 0 else if c / 64 % 64 < d / 64 % 64 then 1 else 2;
    } else {
      k := if c / 262144 < d / 262144 then 0 else if c / 4096 % 64 < d / 4096 % 64 then 1
           else if c / 64 % 64 < d / 64 % 64 then 2 else 3;
    }
  }

  /** Two numbers are ordered by their first differing digit in base 64. */
  lemma Base64Digits(c: int, d: int)
    requires 0 <= c < d
    ensures c / 64 < d / 64 || (c / 64 == d / 64 && c % 64 < d % 64)
    ensures c / 4096 < d / 4096 || (c / 4096 == d / 4096 && c / 64 % 64 < d / 64 % 64) || c / 64 == d / 64
    ensures c / 262144 < d / 262144 || (c / 262144 == d / 262144 && c / 4096 % 64 < d / 4096 % 64) || c / 4096 == d / 4096
  {
    assert c / 4096 == c / 64 / 64 && d / 4096 == d / 64 / 64;
    assert c / 262144 == c / 4096 / 64 && d / 262144 == d / 4096 / 64;
  }

  /** Comparing the bytes of two texts is comparing their characters. */
  lemma {:induction false} ByteOrderIsScalarOrder(s: seq<int>, t: seq<int>)
    requires AllScalars(s) && AllScalars(t)
    ensures Less(EncodeText(s), EncodeText(t)) == Less(s, t)
    decreases |s|
  {
    if s != [] && t != [] {
      var a, b := EncodeText(s), EncodeText(t);
      if s[0] == t[0] {
        ByteOrderIsScalarOrder(s[1..], t[1..]);
        LessAfterCommon(Encode(s[0]), EncodeText(s[1..]), EncodeText(t[1..]));
      } else if s[0] < t[0] {
        var k := EncodeIsMonotone(s[0], t[0]);
        assert a[..k] == Encode(s[0])[..k] && b[..k] == Encode(t[0])[..k];
        LessAt(a, b, k);
      } else {
        var k := EncodeIsMonotone(t[0], s[0]);
        assert a[..k] == Encode(s[0])[..k] && b[..k] == Encode(t[0])[..k];
        LessAt(a, b, k);
      }
    }
  }
}
