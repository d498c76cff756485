/** The string operations of the source's language that the gateway relies on:
    substring search, replacement, and decimal printing and parsing. */
module Strings {
  datatype Option<+T> = None | Some(value: T) {
    predicate IsFailure() { None? }

    function PropagateFailure<U>(): Option<U>
      requires None?
    {
      None
    }

    function Extract(): T
      requires Some?
    {
      value
    }
  }

  ghost predicate OccursAt(s: string, t: string, i: int) {
    0 <= i <= |s| - |t| && s[i..i + |t|] == t
  }

  predicate StartsWith(s: string, t: string) {
    |t| <= |s| && s[..|t|] == t
  }

  lemma OccursShift(s: string, t: string, i: int)
    requires |s| > 0 && i >= 0
    ensures OccursAt(s[1..], t, i) <==> OccursAt(s, t, i + 1)
  {
    if 0 <= i <= |s| - 1 - |t| {
      assert s[1..][i..i + |t|] == s[i + 1..i + 1 + |t|];
    }
  }

  /** s.find(t): the offset of the first occurrence of t in s, or -1. */
  function Find(s: string, t: string): (r: int)
    ensures r == -1 || 0 <= r <= |s| - |t|
  {
    if StartsWith(s, t) then 0
    else if |s| == 0 then -1
    else
      var r := Find(s[1..], t);
      if r < 0 then -1 else r + 1
  }

  /** What is found is an occurrence ... */
  lemma {:induction false} FindOccurs(s: string, t: string)
    requires Find(s, t) >= 0
    ensures OccursAt(s, t, Find(s, t))
  {
    if !StartsWith(s, t) {
      FindOccurs(s[1..], t);
      OccursShift(s, t, Find(s[1..], t));
    }
  }

  /** ... and no occurrence comes before it, or goes unnoticed. */
  lemma {:induction false} FindFirst(s: string, t: string, i: nat)
    requires OccursAt(s, t, i)
    ensures 0 <= Find(s, t) <= i
  {
    if !StartsWith(s, t) {
      assert i > 0;
      OccursShift(s, t, i - 1);
      FindFirst(s[1..], t, i - 1);
    }
  }

  predicate Contains(s: string, t: string) {
    Find(s, t) >= 0
  }

  /** Dropping a prefix that ends before the first occurrence only shifts it. */
  lemma {:induction false} FindDrop(s: string, t: string, k: nat)
    requires k <= |s|
    requires Find(s, t) < 0 || k <= Find(s, t)
    ensures Find(s[k..], t) == if Find(s, t) < 0 then -1 else Find(s, t) - k
  {
    if k == 0 {
      assert s[k..] == s;
    } else {
      FindDrop(s[1..], t, k - 1);
      assert s[1..][k - 1..] == s[k..];
    }
  }

  lemma FindPrefix(s: string, t: string)
    requires StartsWith(s, t)
    ensures Find(s, t) == 0
  {}

  /** A stretch that lacks the first character of t delays the search, nothing else. */
  lemma {:induction false} FindSkip(a: string, b: string, t: string)
    requires |t| > 0 && t[0] !in a
    ensures Find(a + b, t) == if Find(b, t) < 0 then -1 else |a| + Find(b, t)
  {
    if a == "" {
      assert a + b == b;
    } else {
      assert (a + b)[1..] == a[1..] + b;
      assert (a + b)[0] == a[0] != t[0];
      FindSkip(a[1..], b, t);
    }
  }

  /** s.replace(old, new): left to right, non-overlapping. */
  function Replace(s: string, old_: string, new_: string): string
    requires |old_| > 0
  {
    if s == "" then ""
    else if StartsWith(s, old_) then new_ + Replace(s[|old_|..], old_, new_)
    else [s[0]] + Replace(s[1..], old_, new_)
  }

  lemma {:induction false} ReplaceSkip(a: string, b: string, old_: string, new_: string)
    requires |old_| > 0 && old_[0] !in a
    ensures Replace(a + b, old_, new_) == a + Replace(b, old_, new_)
  {
    if a == "" {
      assert a + b == b;
    } else {
      assert (a + b)[1..] == a[1..] + b;
      assert (a + b)[0] == a[0] != old_[0];
      ReplaceSkip(a[1..], b, old_, new_);
      assert a == [a[0]] + a[1..];
    }
  }

  lemma ReplaceHere(b: string, old_: string, new_: string)
    requires |old_| > 0
    ensures Replace(old_ + b, old_, new_) == new_ + Replace(b, old_, new_)
  {
    assert (old_ + b)[|old_|..] == b;
  }

  predicate IsDigit(c: char) { '0' <= c <= '9' }

  function Digits(n: nat): (s: string)
    ensures |s| >= 1 && forall i :: 0 <= i < |s| ==> IsDigit(s[i])
  {
    if n < 10 then [('0' as int + n) as char]
    else Digits(n / 10) + [('0' as int + n % 10) as char]
  }

  /** str(n) for an integer. */
  function Dec(n: int): (s: string)
    ensures |s| >= 1 && forall i :: 0 <= i < |s| ==> IsDigit(s[i]) || s[i] == '-'
  {
    if n < 0 then "-" + Digits(-n) else Digits(n)
  }

  function DigitsValue(s: string): Option<int> {
    if s == "" then None
    else if !IsDigit(s[|s| - 1]) then None
    else
      var d := s[|s| - 1] as int - '0' as int;
      if |s| == 1 then Some(d)
      else match DigitsValue(s[..|s| - 1])
        case None => None
        case Some(v) => Some(10 * v + d)
  }

  predicate IsSpace(c: char) {
    c == ' ' || c == '\t' || c == '\n' || c == '\r' || c as int == 11 || c as int == 12
  }

  function LStrip(s: string): (r: string)
    ensures |r| <= |s|
  {
    if s != "" && IsSpace(s[0]) then LStrip(s[1..]) else s
  }

  function RStrip(s: string): (r: string)
    ensures |r| <= |s|
  {
    if s != "" && IsSpace(s[|s| - 1]) then RStrip(s[..|s| - 1]) else s
  }

  function Strip(s: string): string { RStrip(LStrip(s)) }

  function Negate(o: Option<int>): Option<int> {
    match o case None => None case Some(v) => Some(-v)
  }

  function SignedValue(t: string): Option<int> {
    if t == "" then None
    else if t[0] == '-' then Negate(DigitsValue(t[1..]))
    else if t[0] == '+' then DigitsValue(t[1..])
    else DigitsValue(t)
  }

  /** int(s): surrounding white space, an optional sign, then digits; None is ValueError. */
  function ParseInt(s: string): Option<int> { SignedValue(Strip(s)) }

  lemma {:induction false} DigitsRoundTrip(n: nat)
    ensures DigitsValue(Digits(n)) == Some(n)
  {
    if n >= 10 {
      DigitsRoundTrip(n / 10);
      var s := Digits(n);
      assert s[..|s| - 1] == Digits(n / 10);
    }
  }

  lemma StripNothing(s: string)
    requires s != "" && !IsSpace(s[0]) && !IsSpace(s[|s| - 1])
    ensures Strip(s) == s
  {}

  lemma SignedValueOfDec(n: int)
    ensures SignedValue(Dec(n)) == Some(n)
  {
    if n < 0 {
      DigitsRoundTrip(-n);
      assert Dec(n)[1..] == Digits(-n);
    } else {
      DigitsRoundTrip(n);
    }
  }

  lemma ParseIntOfDec(n: int)
    ensures ParseInt(Dec(n)) == Some(n)
  {
    StripNothing(Dec(n));
    SignedValueOfDec(n);
  }
}
