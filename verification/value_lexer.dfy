/** How the parser in C takes the text of a value: up to the next mark, but for a mark that follows a backslash. */
module ValueLexer {
  import opened Strings
  import opened XmlEscape

  const MAX_ONE_STRING := 2048

  /** What is read of a value, and how many characters were used up for it, with the '<' after it. */
  datatype Lexed = EndOfInput | Value(text: string, used: nat)

  /** A value ends at a '<' that does not follow a backslash. */
  predicate Ends(s: string, i: nat) {
    i < |s| && s[i] == '<' && (i > 0 ==> s[i - 1] != '\\')
  }

  /** What a buffer holds of the text. */
  function Kept(s: string): string { if |s| < MAX_ONE_STRING then s else s[..MAX_ONE_STRING - 1] }

  /** A string in C ends at its first zero. */
  function UpToZero(s: string): string {
    if s == "" || s[0] == '\0' then "" else [s[0]] + UpToZero(s[1..])
  }

  /** sf_get_value() */
  method GetValue(input: string) returns (v: Lexed)
    ensures v.EndOfInput? <==> forall i :: !Ends(input, i)
    ensures v.Value? ==>
              && v.used > 0 && Ends(input, v.used - 1) && (forall i :: 0 <= i < v.used - 1 ==> !Ends(input, i))
              && v.text == UpToZero(Kept(input[..v.used - 1]))
    ensures v == Lex(input)
  {
    var sbuf, prev, truncated, i := "", '\0', false, 0;
    while true
      invariant 0 <= i <= |input| && prev == (if i == 0 then '\0' else input[i - 1])
      invariant sbuf == Kept(input[..i]) && (truncated ==> i >= MAX_ONE_STRING)
      invariant forall j :: 0 <= j < i ==> !Ends(input, j)
      decreases |input| - i
    {
      if i == |input| {
        NoEnd(input);
        return EndOfInput;
      }
      var c := input[i];
      if c == '<' && prev != '\\' { break; }
      prev := c;
      if !truncated && |sbuf| >= MAX_ONE_STRING - 1 { truncated := true; }
      if !truncated { sbuf := sbuf + [c]; }
      i := i + 1;
    }
    FirstEnd(input, i);
    v := Value(UpToZero(sbuf), i + 1);
  }

  /** The first end of the value, from the i-th character on, or the end of the text. */
  function EndFrom(s: string, i: nat): (k: nat)
    requires i <= |s|
    ensures i <= k <= |s| && (k < |s| ==> Ends(s, k)) && forall j :: i <= j < k ==> !Ends(s, j)
    decreases |s| - i
  {
    if i == |s| || Ends(s, i) then i else EndFrom(s, i + 1)
  }

  function Lex(s: string): Lexed {
    var k := EndFrom(s, 0);
    if k == |s| then EndOfInput else Value(UpToZero(Kept(s[..k])), k + 1)
  }

  lemma FirstEnd(s: string, k: nat)
    requires Ends(s, k) && forall j :: 0 <= j < k ==> !Ends(s, j)
    ensures EndFrom(s, 0) == k
  {}

  lemma NoEnd(s: string)
    requires forall j :: 0 <= j < |s| ==> !Ends(s, j)
    ensures EndFrom(s, 0) == |s|
  {}

  lemma {:induction false} WithoutZero(s: string)
    ensures UpToZero(s) == s <==> '\0' !in s
    ensures |UpToZero(s)| <= |s|
  {
    if s != "" {
      WithoutZero(s[1..]);
      assert s == [s[0]] + s[1..];
    }
  }

  predicate EndsInBackslash(s: string) { s != "" && s[|s| - 1] == '\\' }

  /** A text without '<', and its end tag, are taken for the text if and only if it fits the buffer, has no zero in
      it, and does not end in a backslash. */
  lemma TextIsTakenIff(text: string, rest: string)
    requires '<' !in text && rest != "" && rest[0] == '<'
    ensures Lex(text + rest) == Value(text, |text| + 1)
            <==> |text| < MAX_ONE_STRING && '\0' !in text && !EndsInBackslash(text)
    ensures !EndsInBackslash(text) ==> Lex(text + rest) == Value(UpToZero(Kept(text)), |text| + 1)
  {
    var s := text + rest;
    assert forall j :: 0 <= j < |text| ==> s[j] == text[j];
    assert s[..|text|] == text;
    if EndsInBackslash(text) {
      assert !Ends(s, |text|);
      if EndFrom(s, 0) == |text| { assert false; }
    } else {
      assert Ends(s, |text|);
      FirstEnd(s, |text|);
      WithoutZero(text);
      WithoutZero(Kept(text));
    }
  }

  lemma {:induction false} EscapedEnd(s: string)
    ensures EndsInBackslash(EscapeSet(SPECIALS, s)) <==> EndsInBackslash(s)
    ensures '\0' in EscapeSet(SPECIALS, s) <==> '\0' in s
    ensures EscapeSet(SPECIALS, s) == "" <==> s == ""
  {
    if s != "" {
      EscapedEnd(s[1..]);
      var first, rest := EscapeChar(SPECIALS, s[0]), EscapeSet(SPECIALS, s[1..]);
      EntityEnds(s[0]);
      assert s == [s[0]] + s[1..];
      assert rest != "" ==> (first + rest)[|first + rest| - 1] == rest[|rest| - 1];
    }
  }

  lemma EntityEnds(c: char)
    ensures EndsInBackslash(EscapeChar(SPECIALS, c)) <==> c == '\\'
    ensures '\0' in EscapeChar(SPECIALS, c) <==> c == '\0'
  {}

  /** So a string that was printed is given back, when the entities are undone, if and only if what was printed of
      it fits the buffer, and it has no zero in it and does not end in a backslash. */
  lemma StringIsReadIff(s: string, rest: string)
    requires rest != "" && rest[0] == '<'
    ensures var text := PrepValueForXml(Str(s));
            Lex(text + rest) == Value(text, |text| + 1)
            <==> |text| < MAX_ONE_STRING && '\0' !in s && !EndsInBackslash(s)
    ensures |PrepValueForXml(Str(s))| < MAX_ONE_STRING && '\0' !in s && !EndsInBackslash(s) ==>
              Lex(PrepValueForXml(Str(s)) + rest).Value? && UnEscapeXml(Lex(PrepValueForXml(Str(s)) + rest).text) == s
  {
    PrepValueRoundTrip(s);
    EscapeIsOnePass(s);
    EscapedEnd(s);
    TextIsTakenIff(PrepValueForXml(Str(s)), rest);
  }

  /** A text that ends in a backslash takes its end tag with it: what is read goes as far as the next mark. */
  lemma BackslashTakesTheTag(text: string, tag: string, rest: string)
    requires '<' !in text && EndsInBackslash(text) && '<' !in tag && tag != "" && !EndsInBackslash(tag)
    requires rest != "" && rest[0] == '<'
    ensures Lex(text + ("<" + tag) + rest) == Value(UpToZero(Kept(text + ("<" + tag))), |text| + |tag| + 2)
  {
    var all, n := text + ("<" + tag), |text|;
    var s := all + rest;
    assert s[n - 1] == text[n - 1] && all[n] == '<' && all[|all| - 1] == tag[|tag| - 1];
    forall j | 0 <= j < |all| ensures !Ends(s, j) {
      assert s[j] == if j < n then text[j] else if j == n then '<' else tag[j - n - 1];
    }
    assert Ends(s, |all|);
    FirstEnd(s, |all|);
    assert s[..|all|] == all;
  }
}
