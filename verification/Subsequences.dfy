/** Where one text stands in another. */
module Subsequences {
  import opened Utf8

  /** `s` stands in `text` at `pos`. */
  ghost predicate At(text: Bytes, pos: nat, s: Bytes) {
    pos + |s| <= |text| && text[pos..pos + |s|] == s
  }

  lemma AtSplit(text: Bytes, pos: nat, a: Bytes, b: Bytes)
    ensures At(text, pos, a + b) <==> At(text, pos, a) && At(text, pos + |a|, b)
  {
    if pos + |a| + |b| <= |text| {
      var s := text[pos..pos + |a + b|];
      assert s == text[pos..pos + |a|] + text[pos + |a|..pos + |a| + |b|];
      if s == a + b {
        assert s[..|a|] == a && s[|a|..] == b;
      }
    }
  }

  lemma AtByte(text: Bytes, pos: nat, b: Byte)
    ensures At(text, pos, [b]) <==> pos < |text| && text[pos] == b
  {
    if pos < |text| {
      assert text[pos..pos + 1] == [text[pos]];
    }
  }

  lemma AtHead(text: Bytes, pos: nat, s: Bytes)
    requires At(text, pos, s) && s != []
    ensures pos < |text| && text[pos] == s[0] && At(text, pos + 1, s[1..])
  {
    assert s == [s[0]] + s[1..];
    AtSplit(text, pos, [s[0]], s[1..]);
    AtByte(text, pos, s[0]);
  }

  lemma AtIndex(text: Bytes, pos: nat, s: Bytes, k: nat)
    requires At(text, pos, s) && k < |s|
    ensures pos + k < |text| && text[pos + k] == s[k]
  {
    assert text[pos..pos + |s|][k] == s[k];
  }

  lemma AtFirst(text: Bytes, pos: nat, s: Bytes)
    requires At(text, pos, s) && s != []
    ensures pos < |text| && text[pos] == s[0] && pos + |s| <= |text|
  {
    AtIndex(text, pos, s, 0);
  }

  lemma AtFits(text: Bytes, pos: nat, s: Bytes)
    requires At(text, pos, s)
    ensures pos + |s| <= |text|
  {}

  /** A text in three parts. */
  lemma AtThree(text: Bytes, pos: nat, a: Bytes, b: Bytes, c: Bytes)
    requires At(text, pos, a + b + c)
    ensures At(text, pos, a) && At(text, pos + |a|, b) && At(text, pos + |a| + |b|, c)
    ensures pos + |a| + |b| + |c| <= |text|
  {
    hide At;
    AtSplit(text, pos, a + b, c);
    AtSplit(text, pos, a, b);
    AtFits(text, pos, a + b + c);
  }
}
