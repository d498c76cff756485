/** Escaping of values with the five predefined entities of section 4.6 of XML 1.0:
    the writer's sequential replace passes and the monitors' inverse. */
module XmlEscape {
  import opened Strings

  const META_CHAR_AMP := "&amp;"
  const META_CHAR_LT := "&lt;"
  const META_CHAR_GT := "&gt;"
  const META_CHAR_APOS := "&apos;"
  const META_CHAR_QUOT := "&quot;"

  function EscapeForXml(val: string): string {
    var v1 := Replace(val, "&", META_CHAR_AMP);
    var v2 := Replace(v1, "'", META_CHAR_APOS);
    var v3 := Replace(v2, "\"", META_CHAR_QUOT);
    var v4 := Replace(v3, "<", META_CHAR_LT);
    Replace(v4, ">", META_CHAR_GT)
  }

  function UnEscapeXml(val: string): string {
    var v1 := Replace(val, META_CHAR_APOS, "'");
    var v2 := Replace(v1, META_CHAR_QUOT, "\"");
    var v3 := Replace(v2, META_CHAR_GT, ">");
    var v4 := Replace(v3, META_CHAR_LT, "<");
    Replace(v4, META_CHAR_AMP, "&")
  }

  /** A value handed to the writer: a string, or anything else through its repr(). */
  datatype Value = Str(s: string) | Other(repr: string)

  function PrepValueForXml(val: Value): string {
    match val
    case Str(s) =>
      if Find(s, "&") >= 0 || Find(s, "<") >= 0 || Find(s, ">") >= 0 then EscapeForXml(s) else s
    case Other(r) => r
  }

  // ----- The one-pass reference: every character of ks becomes its entity.

  const SPECIALS: set<char> := {'&', '\'', '"', '<', '>'}

  function Entity(c: char): (e: string)
    requires c in SPECIALS
    ensures |e| >= 4 && e[0] == '&'
    ensures forall i :: 1 <= i < |e| ==> e[i] !in SPECIALS
  {
    if c == '&' then META_CHAR_AMP
    else if c == '\'' then META_CHAR_APOS
    else if c == '"' then META_CHAR_QUOT
    else if c == '<' then META_CHAR_LT
    else META_CHAR_GT
  }

  function EscapeChar(ks: set<char>, c: char): string
    requires ks <= SPECIALS
  {
    if c in ks then Entity(c) else [c]
  }

  function EscapeSet(ks: set<char>, s: string): string
    requires ks <= SPECIALS
  {
    if s == "" then "" else EscapeChar(ks, s[0]) + EscapeSet(ks, s[1..])
  }

  /** No entity is a prefix of another one, whatever follows. */
  lemma EntitiesPrefixFree(k: char, c: char, rest: string)
    requires k in SPECIALS && c in SPECIALS && k != c
    ensures !StartsWith(Entity(k) + rest, Entity(c))
  {
    var a, b := Entity(k), Entity(c);
    assert (a + rest)[1] == a[1] && (a + rest)[2] == a[2];
    if StartsWith(a + rest, b) { assert false; }
  }

  /** One escaping pass adds one character to the escaped set, provided '&' goes first. */
  lemma {:induction false} EscapePass(ks: set<char>, c: char, s: string)
    requires ks <= SPECIALS && c in SPECIALS - ks && (c == '&' ==> ks == {})
    ensures Replace(EscapeSet(ks, s), [c], Entity(c)) == EscapeSet(ks + {c}, s)
  {
    if s != "" {
      var rest := EscapeSet(ks, s[1..]);
      EscapePass(ks, c, s[1..]);
      if s[0] == c {
        ReplaceHere(rest, [c], Entity(c));
      } else {
        ReplaceSkip(EscapeChar(ks, s[0]), rest, [c], Entity(c));
      }
    }
  }

  /** One unescaping pass removes one character from the escaped set while '&' is still in it. */
  lemma {:induction false} UnescapePass(ks: set<char>, c: char, s: string)
    requires ks <= SPECIALS && '&' in ks && c in ks
    ensures Replace(EscapeSet(ks, s), Entity(c), [c]) == EscapeSet(ks - {c}, s)
  {
    if s != "" {
      var rest := EscapeSet(ks, s[1..]);
      UnescapePass(ks, c, s[1..]);
      var t := EscapeChar(ks, s[0]);
      if s[0] == c {
        ReplaceHere(rest, Entity(c), [c]);
      } else if s[0] in ks {
        EntitiesPrefixFree(s[0], c, rest);
        assert (t + rest)[1..] == t[1..] + rest;
        ReplaceSkip(t[1..], rest, Entity(c), [c]);
        assert [t[0]] + t[1..] == t;
      } else {
        ReplaceSkip(t, rest, Entity(c), [c]);
      }
    }
  }

  lemma {:induction false} EscapeNothing(s: string)
    ensures EscapeSet({}, s) == s
  {
    if s != "" { EscapeNothing(s[1..]); }
  }

  /** The five passes compute the one-pass escape. */
  lemma EscapeIsOnePass(s: string)
    ensures EscapeForXml(s) == EscapeSet(SPECIALS, s)
  {
    EscapeNothing(s);
    EscapePass({}, '&', s);
    EscapePass({'&'}, '\'', s);
    EscapePass({'&', '\''}, '"', s);
    EscapePass({'&', '\'', '"'}, '<', s);
    EscapePass({'&', '\'', '"', '<'}, '>', s);
    assert {} + {'&'} == {'&'};
    assert {'&'} + {'\''} == {'&', '\''};
    assert {'&', '\''} + {'"'} == {'&', '\'', '"'};
    assert {'&', '\'', '"'} + {'<'} == {'&', '\'', '"', '<'};
    assert {'&', '\'', '"', '<'} + {'>'} == SPECIALS;
  }

  /** Round trip over every string. */
  lemma EscapeRoundTrip(s: string)
    ensures UnEscapeXml(EscapeForXml(s)) == s
  {
    EscapeIsOnePass(s);
    UnescapePass(SPECIALS, '\'', s);
    var k1 := SPECIALS - {'\''};
    UnescapePass(k1, '"', s);
    var k2 := k1 - {'"'};
    UnescapePass(k2, '>', s);
    var k3 := k2 - {'>'};
    UnescapePass(k3, '<', s);
    UnescapePass({'&'}, '&', s);
    assert k3 - {'<'} == {'&'} && {'&'} - {'&'} == {};
    EscapeNothing(s);
  }

  lemma {:induction false} EscapeSetClean(s: string)
    ensures '<' !in EscapeSet(SPECIALS, s) && '>' !in EscapeSet(SPECIALS, s)
  {
    if s != "" { EscapeSetClean(s[1..]); }
  }

  lemma {:induction false} FindCharIsMembership(s: string, c: char)
    ensures Find(s, [c]) >= 0 <==> c in s
  {
    if s != "" {
      FindCharIsMembership(s[1..], c);
      assert s == [s[0]] + s[1..];
      if s[0] != c { FindSkip([s[0]], s[1..], [c]); }
    }
  }

  lemma UnEscapeWithoutAmp(s: string)
    requires '&' !in s
    ensures UnEscapeXml(s) == s
  {
    assert s + "" == s;
    ReplaceSkip(s, "", META_CHAR_APOS, "'");
    ReplaceSkip(s, "", META_CHAR_QUOT, "\"");
    ReplaceSkip(s, "", META_CHAR_GT, ">");
    ReplaceSkip(s, "", META_CHAR_LT, "<");
    ReplaceSkip(s, "", META_CHAR_AMP, "&");
  }

  /** A printed string value unescapes to itself and cannot be mistaken for markup. */
  lemma PrepValueRoundTrip(s: string)
    ensures UnEscapeXml(PrepValueForXml(Str(s))) == s
    ensures '<' !in PrepValueForXml(Str(s)) && '>' !in PrepValueForXml(Str(s))
  {
    FindCharIsMembership(s, '&');
    FindCharIsMembership(s, '<');
    FindCharIsMembership(s, '>');
    EscapeRoundTrip(s);
    EscapeIsOnePass(s);
    EscapeSetClean(s);
    if '&' !in s { UnEscapeWithoutAmp(s); }
  }

  /** The order matters: undoing '&' first turns escaped text into markup. */
  lemma AmpersandMustBeUndoneLast()
    ensures EscapeForXml("&lt;") == "&amp;lt;"
    ensures Replace(Replace("&amp;lt;", META_CHAR_AMP, "&"), META_CHAR_LT, "<") == "<"
  {
    EscapeIsOnePass("&lt;");
    assert "&lt;"[1..] == "lt;" && "lt;"[1..] == "t;" && "t;"[1..] == ";" && ";"[1..] == "";
    assert EscapeSet(SPECIALS, ";") == ";";
    assert EscapeSet(SPECIALS, "t;") == "t;";
    assert EscapeSet(SPECIALS, "lt;") == "lt;";
    ReplaceHere("lt;", META_CHAR_AMP, "&");
    assert META_CHAR_AMP + "lt;" == "&amp;lt;";
    ReplaceSkip("lt;", "", META_CHAR_AMP, "&");
    assert "lt;" + "" == "lt;";
    ReplaceHere("", META_CHAR_LT, "<");
    assert META_CHAR_LT + "" == "&lt;";
  }
}
