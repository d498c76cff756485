/** Text made of bracketed names and of stretches without '<': where a name is found in it. */
module Markup {
  import opened Strings

  /** <name>, or plain text. */
  datatype Piece = Mark(name: string) | Plain(s: string)

  function Bracket(name: string): string { "<" + name + ">" }

  function RenderOne(t: Piece): string {
    match t case Mark(n) => Bracket(n) case Plain(s) => s
  }

  function Render(ts: seq<Piece>): string {
    if ts == [] then "" else RenderOne(ts[0]) + Render(ts[1..])
  }

  predicate CleanName(n: string) { '<' !in n && '>' !in n }

  predicate WellFormed(t: Piece) {
    match t case Mark(n) => CleanName(n) case Plain(s) => '<' !in s
  }

  /** Every piece is well formed and none is the name x. */
  predicate Free(ts: seq<Piece>, x: string) {
    forall i :: 0 <= i < |ts| ==> WellFormed(ts[i]) && ts[i] != Mark(x)
  }

  lemma {:induction false} RenderConcat(a: seq<Piece>, b: seq<Piece>)
    ensures Render(a + b) == Render(a) + Render(b)
  {
    if a == [] {
      assert a + b == b;
    } else {
      RenderConcat(a[1..], b);
      assert (a + b)[1..] == a[1..] + b;
    }
  }

  /** Two bracketed clean names that agree at the start of a text are the same name. */
  lemma BracketsPrefixFree(n: string, x: string, rest: string)
    requires CleanName(n) && CleanName(x) && n != x
    ensures !StartsWith(Bracket(n) + rest, Bracket(x))
  {
    var s, p := Bracket(n) + rest, Bracket(x);
    assert s[|n| + 1] == '>' && p[|x| + 1] == '>';
    assert forall i :: 1 <= i <= |n| ==> s[i] == n[i - 1] && s[i] != '>';
    assert forall i :: 1 <= i <= |x| ==> p[i] == x[i - 1] && p[i] != '>';
    if StartsWith(s, p) { SamePrefix(s, p, n, x); }
  }

  lemma SamePrefix(s: string, p: string, n: string, x: string)
    requires |p| == |x| + 2 && |s| >= |n| + 2 && StartsWith(s, p)
    requires s[|n| + 1] == '>' && p[|x| + 1] == '>'
    requires forall i :: 1 <= i <= |n| ==> s[i] == n[i - 1] && s[i] != '>'
    requires forall i :: 1 <= i <= |x| ==> p[i] == x[i - 1] && p[i] != '>'
    ensures n == x
  {
    assert forall i :: 0 <= i < |p| ==> s[i] == p[i];
    var m := if |n| < |x| then |n| else |x|;
    assert s[m + 1] == p[m + 1];
    assert |n| == |x|;
    assert forall i :: 0 <= i < |n| ==> n[i] == s[i + 1] == p[i + 1] == x[i];
  }

  /** A piece other than the name x, put in front, only delays the search for <x>. */
  lemma FindPastPiece(t: Piece, rest: string, x: string)
    requires WellFormed(t) && t != Mark(x) && CleanName(x)
    ensures Find(RenderOne(t) + rest, Bracket(x)) ==
            if Find(rest, Bracket(x)) < 0 then -1 else |RenderOne(t)| + Find(rest, Bracket(x))
  {
    match t
    case Plain(s) => FindSkip(s, rest, Bracket(x));
    case Mark(n) =>
      BracketsPrefixFree(n, x, rest);
      assert (Bracket(n) + rest)[1..] == (n + ">") + rest;
      FindSkip(n + ">", rest, Bracket(x));
  }

  lemma {:induction false} FindPastPieces(ts: seq<Piece>, rest: string, x: string)
    requires Free(ts, x) && CleanName(x)
    ensures Find(Render(ts) + rest, Bracket(x)) ==
            if Find(rest, Bracket(x)) < 0 then -1 else |Render(ts)| + Find(rest, Bracket(x))
  {
    if ts == [] {
      assert Render(ts) + rest == rest;
    } else {
      FindPastPieces(ts[1..], rest, x);
      var tail := Render(ts[1..]) + rest;
      assert Render(ts) + rest == RenderOne(ts[0]) + tail;
      FindPastPiece(ts[0], tail, x);
    }
  }
}
