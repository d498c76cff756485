/** A text of tags, cut at its marks by someone who does not know what was printed. */
module RespItems {
  import opened Strings
  import opened Markup
  import opened XmltpTokens

  /** What is in a pair of brackets, and the text up to the next one. */
  datatype Item = Item(mark: string, text: string)

  /** The offset of the next mark, or the end. */
  function NextMark(s: string): nat { if Find(s, "<") < 0 then |s| else Find(s, "<") }

  predicate BeginsWithMark(s: string) { s != "" && s[0] == '<' && Find(s, ">") > 0 }

  /** The first mark with its text, and what comes after. */
  function Split(s: string): (r: (Item, string))
    requires BeginsWithMark(s)
    ensures |r.1| < |s|
  {
    var close := Find(s, ">");
    var rest := s[close + 1..];
    (Item(s[1..close], rest[..NextMark(rest)]), rest[NextMark(rest)..])
  }

  /** The text, cut at its marks, as far as it can be. */
  function Cut(s: string): seq<Item>
    decreases |s|
  {
    if !BeginsWithMark(s) then [] else [Split(s).0] + Cut(Split(s).1)
  }

  lemma FindClose(name: string, tail: string)
    requires CleanName(name)
    ensures Find(Bracket(name) + tail, ">") == |name| + 1
  {
    assert Bracket(name) + tail == ("<" + name) + (">" + tail);
    FindSkip("<" + name, ">" + tail, ">");
    FindPrefix(">" + tail, ">");
  }

  lemma FindNext(text: string, rest: string)
    requires '<' !in text && (rest == "" || rest[0] == '<')
    ensures NextMark(text + rest) == |text|
  {
    FindSkip(text, rest, "<");
    if rest != "" { FindPrefix(rest, "<"); }
  }

  lemma SplitOne(name: string, text: string, rest: string)
    requires CleanName(name) && '<' !in text && (rest == "" || rest[0] == '<')
    ensures var s := Bracket(name) + text + rest; BeginsWithMark(s) && Split(s) == (Item(name, text), rest)
  {
    var s, tail := Bracket(name) + text + rest, text + rest;
    FindClose(name, tail);
    FindNext(text, rest);
    assert s == Bracket(name) + tail;
    assert s[1..|name| + 1] == name && s[|name| + 2..] == tail;
    assert tail[..|text|] == text && tail[|text|..] == rest;
  }

  function MarkOf(t: Token): string
    requires !t.Text?
  {
    if t.Tag? then TagText(t.tag) else "/" + TagText(t.tag)
  }

  /** Where the tokens after the first mark, and the text after it if there is one, begin. */
  function Skip(ts: seq<Token>): nat
    requires ts != []
  {
    if |ts| > 1 && ts[1].Text? then 2 else 1
  }

  /** Each text follows a mark, and has no mark in it. */
  predicate Paired(ts: seq<Token>) {
    ts == []
    || (!ts[0].Text? && (Skip(ts) == 2 ==> '<' !in ts[1].s) && Paired(ts[Skip(ts)..]))
  }

  function FirstItem(ts: seq<Token>): Item
    requires ts != [] && !ts[0].Text?
  {
    Item(MarkOf(ts[0]), if Skip(ts) == 2 then ts[1].s else "")
  }

  /** Each mark with the text that follows it. */
  function Items(ts: seq<Token>): seq<Item>
    requires Paired(ts)
  {
    if ts == [] then []
    else [FirstItem(ts)] + Items(ts[Skip(ts)..])
  }

  lemma FirstSame(a: seq<Token>, b: seq<Token>)
    requires a != [] && Paired(a) && Paired(b)
    ensures Skip(a + b) == Skip(a) && (a + b)[Skip(a)..] == a[Skip(a)..] + b
    ensures !(a + b)[0].Text? && FirstItem(a + b) == FirstItem(a)
    ensures Paired(a[Skip(a)..] + b) ==> Paired(a + b)
  {
    var ab := a + b;
    assert ab[0] == a[0] && (Skip(a) == 2 ==> ab[1] == a[1]);
    if |a| == 1 && b != [] { assert ab[1] == b[0]; }
  }

  lemma FirstOf(ts: seq<Token>)
    requires ts != [] && Paired(ts)
    ensures Paired(ts[Skip(ts)..]) && Items(ts) == [FirstItem(ts)] + Items(ts[Skip(ts)..])
  {}

  lemma {:induction false} Join(a: seq<Token>, b: seq<Token>)
    requires Paired(a) && Paired(b)
    ensures Paired(a + b) && Items(a + b) == Items(a) + Items(b)
  {
    if a == [] {
      assert a + b == b;
    } else {
      var rest := a[Skip(a)..];
      FirstOf(a);
      Join(rest, b);
      FirstSame(a, b);
      FirstOf(a + b);
      Associate([FirstItem(a)], Items(rest), Items(b));
    }
  }

  lemma Associate(a: seq<Item>, b: seq<Item>, c: seq<Item>)
    ensures (a + b) + c == a + (b + c)
  {}

  lemma PrintFirst(ts: seq<Token>)
    requires ts != [] && Paired(ts)
    ensures Print(ts) == Bracket(MarkOf(ts[0])) + FirstItem(ts).text + Print(ts[Skip(ts)..])
  {
    var n := Skip(ts);
    assert ts == ts[..n] + ts[n..];
    PrintConcat(ts[..n], ts[n..]);
    PrintOne(ts[0]);
    if n == 2 {
      PrintOne(ts[1]);
      assert ts[..2] == [ts[0]] + [ts[1]];
      PrintConcat([ts[0]], [ts[1]]);
    } else {
      assert ts[..1] == [ts[0]];
    }
  }

  /** What is printed is cut into what was printed. */
  lemma {:induction false} CutPrint(ts: seq<Token>)
    requires Paired(ts)
    ensures Cut(Print(ts)) == Items(ts)
  {
    if ts == [] {
      assert Print(ts) == "";
    } else {
      var n := Skip(ts);
      CutPrint(ts[n..]);
      PrintFirst(ts);
      TagTextsClean(ts[0].tag);
      if ts[n..] != [] { PrintFirst(ts[n..]); }
      SplitOne(MarkOf(ts[0]), FirstItem(ts).text, Print(ts[n..]));
    }
  }
}
