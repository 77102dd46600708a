/** Integer arguments of a type: what the parser makes of a literal, and the number that the
    literal writes.
 */
module IntegerArguments {
  import opened Utf8
  import opened Numerals
  import opened Lexing
  import opened TypeAnnotations

  const SEPARATOR: Byte := '_' as int

  predicate DigitsAndSeparators(w: Bytes) {
    forall k | 0 <= k < |w| :: IsDigit(w[k]) || w[k] == SEPARATOR
  }

  /** The number a literal writes; separators do not count. */
  function Written(w: Bytes, value: nat): nat
    requires DigitsAndSeparators(w)
    decreases |w|
  {
    if w == [] then value else Written(w[1..], if w[0] == SEPARATOR then value else value * 10 + (w[0] - 0x30))
  }

  predicate NoDigitAfterSeparator(w: Bytes) {
    forall i, j | 0 <= i < j < |w| && w[i] == SEPARATOR :: !IsDigit(w[j])
  }

  predicate AllZero(w: Bytes) {
    forall k | 0 <= k < |w| && IsDigit(w[k]) :: w[k] == 0x30
  }

  lemma {:induction false} DigitsCount(w: Bytes, value: nat)
    requires DigitsAndSeparators(w)
    ensures Written(w, value) >= value
    ensures Written(w, value) == value <==> (forall k | 0 <= k < |w| :: !IsDigit(w[k])) || (value == 0 && AllZero(w))
    decreases |w|
  {
    if w != [] {
      DigitsCount(w[1..], if w[0] == SEPARATOR then value else value * 10 + (w[0] - 0x30));
      assert forall k | 0 < k < |w| :: w[k] == w[1..][k - 1];
    }
  }

  lemma {:induction false} PrefixIsExact(w: Bytes, value: nat)
    requires DigitsAndSeparators(w)
    ensures LeadingNumber(w, value) == Written(w, value) <==> NoDigitAfterSeparator(w) || (value == 0 && AllZero(w))
    decreases |w|
  {
    if w != [] {
      assert forall k | 0 < k < |w| :: w[k] == w[1..][k - 1];
      assert w[0] != SEPARATOR ==> (NoDigitAfterSeparator(w) <==> NoDigitAfterSeparator(w[1..]));
      if w[0] == SEPARATOR {
        DigitsCount(w[1..], value);
      } else {
        PrefixIsExact(w[1..], value * 10 + (w[0] - 0x30));
      }
    }
  }

  /** The argument is the number the literal writes exactly when no digit follows its first
      separator, or every digit is zero. */
  lemma ArgumentIsWritten(w: Bytes)
    requires DigitsAndSeparators(w)
    ensures LeadingNumber(w, 0) == Written(w, 0) <==> NoDigitAfterSeparator(w) || AllZero(w)
  {
    PrefixIsExact(w, 0);
  }

  const T: Bytes := ['T' as int]
  const ONE_THOUSAND: Bytes := [0x31, SEPARATOR, 0x30, 0x30, 0x30]

  /** T[1_000] has the argument 1. */
  const THOUSAND_TOKENS: seq<Tok> := [Tok(Ident, T), Tok(CrochetOuv, [OPEN]), Tok(EntierLit, ONE_THOUSAND), Tok(CrochetFerm, [CLOSE])]

  lemma ThousandIsOne()
    ensures Written(ONE_THOUSAND, 0) == 1000
    ensures ParseUnion(THOUSAND_TOKENS, 0) == Parsed(Generic(T, [IntegerArgument(1)]), 4)
  {
    WrittenThousand();
    LeadingOne();
    hide LeadingNumber, Written;
    var ts := THOUSAND_TOKENS;
    ParsedArgument(ts);
    hide ParseArguments;
    assert NameRest(ts, 1, T) == Parsed(T, 1);
    assert ParseGeneric(ts, 0) == Parsed(Generic(T, [IntegerArgument(1)]), 4);
  }

  lemma WrittenThousand()
    ensures Written(ONE_THOUSAND, 0) == 1000
  {
    var w, zero: Bytes := ONE_THOUSAND, [0x30];
    assert w[1..] == [SEPARATOR] + (zero + zero + zero) && ([SEPARATOR] + (zero + zero + zero))[1..] == zero + zero + zero;
    assert (zero + zero + zero)[1..] == zero + zero && (zero + zero)[1..] == zero && zero[1..] == [];
    assert Written(zero, 100) == 1000;
    assert Written(zero + zero, 10) == 1000;
    assert Written(zero + zero + zero, 1) == 1000;
    assert Written([SEPARATOR] + (zero + zero + zero), 1) == 1000;
  }

  lemma LeadingOne()
    ensures LeadingNumber(ONE_THOUSAND, 0) == 1
  {
    assert ONE_THOUSAND[1..][0] == SEPARATOR;
    assert LeadingNumber(ONE_THOUSAND[1..], 1) == 1;
  }

  lemma ParsedArgument(ts: seq<Tok>)
    requires ts == THOUSAND_TOKENS && LeadingNumber(ONE_THOUSAND, 0) == 1
    ensures ParseArguments(ts, 2, []) == Parsed([IntegerArgument(1)], 4)
  {
    hide LeadingNumber, ParseUnion;
    assert [] + [IntegerArgument(1)] == [IntegerArgument(1)];
  }
}
