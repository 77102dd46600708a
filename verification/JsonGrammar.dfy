/** The grammar of RFC 8259, as derivation trees: the text of a tree, what it means,
    and which trees the parser takes. Section 2 gives values and white space,
    sections 4 to 7 objects, arrays, numbers and strings.
 */
module JsonGrammar {
  import opened Numerals
  import opened Utf8
  import opened JsonParsing

  /** A character of a string: as itself, after a backslash, or as one or two groups
      of four hexadecimal digits. */
  datatype Chr =
    | Plain(c: int)
    | Short(letter: Byte)
    | Unit(digits: Bytes)
    | Pair(high: Bytes, low: Bytes)

  datatype Power = Power(marker: Byte, sign: Bytes, digits: Bytes)

  /** `pad` is white space. */
  datatype Tree =
    | TNull
    | TBool(b: bool)
    | TNumber(minus: bool, integer: Bytes, fraction: Option<Bytes>, power: Option<Power>)
    | TString(chars: seq<Chr>)
    | TArray(pad: Bytes, items: seq<Item>)
    | TObject(pad: Bytes, members: seq<Member>)

  datatype Item = Item(before: Bytes, tree: Tree, after: Bytes)

  datatype Member = Member(before: Bytes, key: seq<Chr>, afterKey: Bytes, beforeValue: Bytes, tree: Tree, after: Bytes)

  predicate AllSpace(s: Bytes) {
    forall k | 0 <= k < |s| :: IsSpace(s[k])
  }

  // Strings

  predicate IsHex4(s: Bytes) {
    |s| == 4 && forall k | 0 <= k < 4 :: HexValue(s[k]).Some?
  }

  function Hex4(s: Bytes): int
    requires IsHex4(s)
  {
    ((HexValue(s[0]).value * 16 + HexValue(s[1]).value) * 16 + HexValue(s[2]).value) * 16 + HexValue(s[3]).value
  }

  predicate ChrOk(ch: Chr) {
    match ch
    case Plain(c) => IsScalar(c) && c >= 0x20 && c != QUOTE && c != BACKSLASH
    case Short(letter) => Unescaped(letter).Some?
    case Unit(d) => IsHex4(d) && IsScalar(Hex4(d))
    case Pair(h, l) => IsHex4(h) && IsHex4(l) && 0xD800 <= Hex4(h) <= 0xDBFF && 0xDC00 <= Hex4(l) <= 0xDFFF
  }

  function ChrText(ch: Chr): Bytes
    requires ChrOk(ch)
  {
    match ch
    case Plain(c) => Encode(c)
    case Short(letter) => [BACKSLASH, letter]
    case Unit(d) => [BACKSLASH, 0x75] + d
    case Pair(h, l) => [BACKSLASH, 0x75] + h + [BACKSLASH, 0x75] + l
  }

  /** Two surrogates stand for one character beyond the basic plane. */
  function ChrMeaning(ch: Chr): Bytes
    requires ChrOk(ch)
  {
    match ch
    case Plain(c) => Encode(c)
    case Short(letter) => [Unescaped(letter).value]
    case Unit(d) => Encode(Hex4(d))
    case Pair(h, l) => Encode(0x10000 + (Hex4(h) - 0xD800) * 1024 + (Hex4(l) - 0xDC00))
  }

  predicate CharsOk(chars: seq<Chr>) {
    forall k | 0 <= k < |chars| :: ChrOk(chars[k])
  }

  function CharsText(chars: seq<Chr>): Bytes
    requires CharsOk(chars)
  {
    if chars == [] then [] else ChrText(chars[0]) + CharsText(chars[1..])
  }

  function CharsMeaning(chars: seq<Chr>): Bytes
    requires CharsOk(chars)
  {
    if chars == [] then [] else ChrMeaning(chars[0]) + CharsMeaning(chars[1..])
  }

  function StringText(chars: seq<Chr>): Bytes
    requires CharsOk(chars)
  {
    [QUOTE] + CharsText(chars) + [QUOTE]
  }

  // Numbers

  predicate PowerOk(p: Power) {
    && (p.marker == 0x65 || p.marker == 0x45)
    && (p.sign == [] || p.sign == [PLUS] || p.sign == [MINUS])
    && p.digits != [] && AllDigits(p.digits)
  }

  /** No leading zero; at least one digit in each part there is. */
  predicate NumberOk(integer: Bytes, fraction: Option<Bytes>, power: Option<Power>) {
    && integer != [] && AllDigits(integer) && (integer[0] == ZERO ==> |integer| == 1)
    && (fraction.Some? ==> fraction.value != [] && AllDigits(fraction.value))
    && (power.Some? ==> PowerOk(power.value))
  }

  function MinusText(minus: bool): Bytes {
    if minus then [MINUS] else []
  }

  function FractionText(fraction: Option<Bytes>): Bytes {
    if fraction.Some? then [DOT] + fraction.value else []
  }

  function PowerText(power: Option<Power>): Bytes {
    if power.Some? then [power.value.marker] + power.value.sign + power.value.digits else []
  }

  function NumberText(minus: bool, integer: Bytes, fraction: Option<Bytes>, power: Option<Power>): Bytes {
    MinusText(minus) + integer + FractionText(fraction) + PowerText(power)
  }

  // Values

  function KeyOf(m: Member): Bytes
    requires CharsOk(m.key)
  {
    CharsMeaning(m.key)
  }

  /** The trees the parser takes: well-formed ones, whose integers fit, whose decimals
      are finite, whose surrogates come in pairs and whose keys are distinct. */
  predicate Ok(t: Tree, finite: Bytes -> bool)
    decreases t, 0
  {
    match t
    case TNull => true
    case TBool(_) => true
    case TNumber(minus, integer, fraction, power) =>
      && NumberOk(integer, fraction, power)
      && var token := NumberText(minus, integer, fraction, power);
         if fraction.None? && power.None? then MIN_ENTIER <= ToInt(token) <= MAX_ENTIER else finite(token)
    case TString(chars) => CharsOk(chars)
    case TArray(pad, items) => AllSpace(pad) && ItemsOk(items, finite)
    case TObject(pad, members) => AllSpace(pad) && MembersOk(members, finite) && DistinctKeys(members, {})
  }

  predicate ItemsOk(items: seq<Item>, finite: Bytes -> bool)
    decreases items, 1
  {
    items == [] ||
    (AllSpace(items[0].before) && AllSpace(items[0].after) && Ok(items[0].tree, finite) && ItemsOk(items[1..], finite))
  }

  predicate MembersOk(members: seq<Member>, finite: Bytes -> bool)
    decreases members, 1
  {
    members == [] ||
    var m := members[0];
    && AllSpace(m.before) && CharsOk(m.key) && AllSpace(m.afterKey) && AllSpace(m.beforeValue)
    && Ok(m.tree, finite) && AllSpace(m.after) && MembersOk(members[1..], finite)
  }

  /** No key occurs twice, or is in `seen`. */
  predicate DistinctKeys(members: seq<Member>, seen: set<Bytes>) {
    members == [] ||
    (CharsOk(members[0].key) && KeyOf(members[0]) !in seen && DistinctKeys(members[1..], seen + {KeyOf(members[0])}))
  }

  function Text(t: Tree, finite: Bytes -> bool): (s: Bytes)
    requires Ok(t, finite)
    ensures s != []
    decreases t, 0
  {
    match t
    case TNull => NULL_LITERAL
    case TBool(b) => if b then TRUE_LITERAL else FALSE_LITERAL
    case TNumber(minus, integer, fraction, power) => NumberText(minus, integer, fraction, power)
    case TString(chars) => StringText(chars)
    case TArray(pad, items) =>
      [OPEN_BRACKET] + (if items == [] then pad else ItemsText(items, finite)) + [CLOSE_BRACKET]
    case TObject(pad, members) =>
      [OPEN_BRACE] + (if members == [] then pad else MembersText(members, finite)) + [CLOSE_BRACE]
  }

  function ItemsText(items: seq<Item>, finite: Bytes -> bool): Bytes
    requires ItemsOk(items, finite)
    decreases items, 1
  {
    if items == [] then []
    else items[0].before + Text(items[0].tree, finite) + items[0].after
         + (if |items| == 1 then [] else [COMMA] + ItemsText(items[1..], finite))
  }

  function MembersText(members: seq<Member>, finite: Bytes -> bool): Bytes
    requires MembersOk(members, finite)
    decreases members, 1
  {
    if members == [] then []
    else
      var m := members[0];
      m.before + StringText(m.key) + m.afterKey + [COLON] + m.beforeValue + Text(m.tree, finite) + m.after
      + (if |members| == 1 then [] else [COMMA] + MembersText(members[1..], finite))
  }

  function Meaning(t: Tree, finite: Bytes -> bool): Json
    requires Ok(t, finite)
    decreases t, 0
  {
    match t
    case TNull => Rien
    case TBool(b) => Logique(b)
    case TNumber(minus, integer, fraction, power) =>
      var token := NumberText(minus, integer, fraction, power);
      if fraction.None? && power.None? then Entier(ToInt(token)) else Decimal(token)
    case TString(chars) => Texte(CharsMeaning(chars))
    case TArray(_, items) => Liste(ItemsMeaning(items, finite))
    case TObject(_, members) => Dictionnaire(MembersMeaning(members, finite))
  }

  function ItemsMeaning(items: seq<Item>, finite: Bytes -> bool): seq<Json>
    requires ItemsOk(items, finite)
    decreases items, 1
  {
    if items == [] then [] else [Meaning(items[0].tree, finite)] + ItemsMeaning(items[1..], finite)
  }

  function MembersMeaning(members: seq<Member>, finite: Bytes -> bool): seq<Entry>
    requires MembersOk(members, finite)
    decreases members, 1
  {
    if members == [] then []
    else [Entry(KeyOf(members[0]), Meaning(members[0].tree, finite))] + MembersMeaning(members[1..], finite)
  }

  /** A well-formed member on its own, without what separates it from the next. */
  predicate MemberOk(m: Member, finite: Bytes -> bool) {
    && AllSpace(m.before) && CharsOk(m.key) && AllSpace(m.afterKey) && AllSpace(m.beforeValue)
    && Ok(m.tree, finite) && AllSpace(m.after)
  }

  function MemberText(m: Member, finite: Bytes -> bool): Bytes
    requires MemberOk(m, finite)
  {
    m.before + StringText(m.key) + m.afterKey + [COLON] + m.beforeValue + Text(m.tree, finite) + m.after
  }

  function MemberMeaning(m: Member, finite: Bytes -> bool): Entry
    requires MemberOk(m, finite)
  {
    Entry(KeyOf(m), Meaning(m.tree, finite))
  }

  // One more in front

  lemma OneMoreItem(i: Item, rest: seq<Item>, finite: Bytes -> bool)
    requires AllSpace(i.before) && AllSpace(i.after) && Ok(i.tree, finite) && ItemsOk(rest, finite)
    ensures var all := [i] + rest;
            && ItemsOk(all, finite) && ItemsMeaning(all, finite) == [Meaning(i.tree, finite)] + ItemsMeaning(rest, finite)
            && ItemsText(all, finite) ==
               i.before + Text(i.tree, finite) + i.after + (if rest == [] then [] else [COMMA] + ItemsText(rest, finite))
  {
    hide AllSpace, Text, Meaning, Ok;
    assert ([i] + rest)[1..] == rest;
  }

  lemma OneMoreMember(m: Member, rest: seq<Member>, finite: Bytes -> bool, seen: set<Bytes>)
    requires MemberOk(m, finite) && MembersOk(rest, finite)
    requires KeyOf(m) !in seen && DistinctKeys(rest, seen + {KeyOf(m)})
    ensures var all := [m] + rest;
            && MembersOk(all, finite) && DistinctKeys(all, seen)
            && MembersMeaning(all, finite) == [MemberMeaning(m, finite)] + MembersMeaning(rest, finite)
            && MembersText(all, finite) ==
               MemberText(m, finite) + (if rest == [] then [] else [COMMA] + MembersText(rest, finite))
  {
    hide AllSpace, Text, Meaning, Ok, StringText, CharsOk, CharsMeaning;
    assert ([m] + rest)[1..] == rest;
  }

  /** A whole text: a value between white space. */
  ghost predicate Denotes(text: Bytes, lead: Bytes, t: Tree, trail: Bytes, finite: Bytes -> bool) {
    AllSpace(lead) && AllSpace(trail) && Ok(t, finite) && text == lead + Text(t, finite) + trail
  }
}
