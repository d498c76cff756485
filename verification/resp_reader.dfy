/** The streaming reader: what the 70-byte tail kept between chunks lets it see. */
module RespReader {
  import opened Strings
  import opened XmltpTokens
  import opened XmltpWriter
  import opened RespText

  const NO_RETURN_STATUS_YET := -999
  const BAD_STATUS := -998
  const RECV_BUFFER_SIZE := 8000

  /** The text after the first occurrence of a tag. */
  function AfterTag(s: string, tag: string): Option<string> {
    var idx := Find(s, tag);
    if idx < 0 then None else Some(s[idx + |tag|..])
  }

  /** The part of the check that reads the status, once the end mark was seen. */
  function StatusIn(s: string): int {
    match AfterTag(s, RETURNSTATUS_TAG)
    case None => NO_RETURN_STATUS_YET
    case Some(s2) => StatusAfter(s2)
  }

  function StatusAfter(s2: string): int {
    match AfterTag(s2, INT_TAG)
    case None => NO_RETURN_STATUS_YET
    case Some(s3) =>
      var idx := Find(s3, INT_END);
      if idx < 0 then NO_RETURN_STATUS_YET
      else match ParseInt(s3[..idx])
        case Some(n) => n
        case None => BAD_STATUS
  }

  predicate SeesEot(s: string) { Find(s, EOT_TAG) >= 0 }

  function CheckEotAndReturnStatus(s: string): (r: (bool, int)) {
    if SeesEot(s) then (true, StatusIn(s)) else (false, NO_RETURN_STATUS_YET)
  }

  function Concat(cs: seq<string>): string {
    if cs == [] then "" else Concat(cs[..|cs| - 1]) + cs[|cs| - 1]
  }

  /** What is kept of the text searched last. */
  function Keep(s: string): string {
    if |s| < 72 then s else s[|s| - 70..]
  }

  /** prev_buff after the chunks cs. */
  function PrevBuff(cs: seq<string>): string {
    if cs == [] then "" else Keep(PrevBuff(cs[..|cs| - 1]) + cs[|cs| - 1])
  }

  /** The text searched when the last chunk of cs has arrived. */
  function Window(cs: seq<string>): string
    requires cs != []
  {
    PrevBuff(cs[..|cs| - 1]) + cs[|cs| - 1]
  }

  ghost predicate IsSuffix(t: string, s: string) {
    |t| <= |s| && t == s[|s| - |t|..]
  }

  function Min(a: nat, b: nat): nat { if a < b then a else b }

  lemma SuffixGrows(t: string, s: string, c: string)
    requires IsSuffix(t, s)
    ensures IsSuffix(t + c, s + c)
  {}

  lemma KeepIsSuffix(t: string, s: string)
    requires IsSuffix(t, s)
    ensures IsSuffix(Keep(t), s)
  {
    if |t| >= 72 { assert Keep(t) == s[|s| - 70..]; }
  }

  lemma KeepStep(prev: string, s: string, c: string)
    requires IsSuffix(prev, s) && |prev| >= Min(70, |s|)
    ensures IsSuffix(Keep(prev + c), s + c)
    ensures |Keep(prev + c)| >= Min(70, |s + c|)
  {
    SuffixGrows(prev, s, c);
    KeepIsSuffix(prev + c, s + c);
  }

  /** The tail kept is always a suffix of what was received, and all of it or at least 70 long. */
  lemma {:induction false} PrevBuffIsSuffix(cs: seq<string>)
    ensures IsSuffix(PrevBuff(cs), Concat(cs))
    ensures |PrevBuff(cs)| >= Min(70, |Concat(cs)|)
  {
    if cs != [] {
      var init, c := cs[..|cs| - 1], cs[|cs| - 1];
      PrevBuffIsSuffix(init);
      KeepStep(PrevBuff(init), Concat(init), c);
    }
  }

  lemma WindowIsSuffix(cs: seq<string>)
    requires cs != [] && |cs[|cs| - 1]| >= 1
    ensures IsSuffix(Window(cs), Concat(cs))
    ensures |Window(cs)| >= Min(71, |Concat(cs)|)
    ensures |Window(cs)| >= Min(70, |Concat(cs[..|cs| - 1])|) + |cs[|cs| - 1]|
  {
    var init, c := cs[..|cs| - 1], cs[|cs| - 1];
    PrevBuffIsSuffix(init);
    SuffixGrows(PrevBuff(init), Concat(init), c);
  }

  lemma OccursInSuffix(w: string, s: string, t: string, i: nat)
    requires IsSuffix(w, s) && |s| - |w| <= i && OccursAt(s, t, i)
    ensures OccursAt(w, t, i - (|s| - |w|))
  {
    var k := |s| - |w|;
    assert w[i - k..i - k + |t|] == s[i..i + |t|];
  }

  lemma OccursInPrefix(a: string, c: string, t: string, i: nat)
    requires OccursAt(a + c, t, i) && i + |t| <= |a|
    ensures OccursAt(a, t, i)
  {
    assert (a + c)[i..i + |t|] == a[i..i + |t|];
  }

  lemma OccursInWhole(w: string, s: string, t: string, i: nat)
    requires IsSuffix(w, s) && OccursAt(w, t, i)
    ensures OccursAt(s, t, i + (|s| - |w|))
  {
    var k := |s| - |w|;
    assert w[i..i + |t|] == s[i + k..i + k + |t|];
  }

  /** A mark absent from init and completed by c lies in every suffix that is long enough. */
  lemma MarkEntersWindow(init: string, c: string, w: string, t: string)
    requires IsSuffix(w, init + c) && |w| >= Min(|t|, |init|) + |c|
    requires !Contains(init, t) && Contains(init + c, t)
    ensures Contains(w, t)
  {
    var s := init + c;
    var i := Find(s, t);
    FindOccurs(s, t);
    if i + |t| <= |init| {
      OccursInPrefix(init, c, t, i);
      FindFirst(init, t, i);
      assert false;
    }
    OccursInSuffix(w, s, t, i);
    FindFirst(w, t, i - (|s| - |w|));
  }

  lemma MarkInWindow(w: string, s: string, t: string)
    requires IsSuffix(w, s) && Contains(w, t)
    ensures Contains(s, t)
  {
    FindOccurs(w, t);
    OccursInWhole(w, s, t, Find(w, t));
    FindFirst(s, t, Find(w, t) + (|s| - |w|));
  }

  /** The end mark is seen exactly when its last byte arrives, however the stream is cut. */
  lemma EotDetected(cs: seq<string>)
    requires cs != [] && |cs[|cs| - 1]| >= 1
    requires !Contains(Concat(cs[..|cs| - 1]), EOT_TAG)
    ensures SeesEot(Window(cs)) <==> Contains(Concat(cs), EOT_TAG)
  {
    WindowIsSuffix(cs);
    var w, init, c := Window(cs), Concat(cs[..|cs| - 1]), cs[|cs| - 1];
    if Contains(init + c, EOT_TAG) { MarkEntersWindow(init, c, w, EOT_TAG); }
    if Contains(w, EOT_TAG) { MarkInWindow(w, init + c, EOT_TAG); }
  }

  lemma DropDrop(s: string, a: nat, b: nat)
    requires a + b <= |s|
    ensures s[a..][b..] == s[a + b..]
  {}

  lemma AfterTagAt(s: string, tag: string, r: nat)
    requires Find(s, tag) == r
    ensures AfterTag(s, tag) == Some(s[r + |tag|..])
  {}

  lemma AfterNoTag(s: string, tag: string)
    requires Find(s, tag) < 0
    ensures AfterTag(s, tag) == None
  {}

  lemma AfterTagShift(s: string, u: string, tag: string, r: nat, q: nat)
    requires Find(s, tag) == r && Find(u, tag) == q && u[q + |tag|..] == s[r + |tag|..]
    ensures AfterTag(u, tag) == AfterTag(s, tag)
  {
    AfterTagAt(s, tag, r);
    AfterTagAt(u, tag, q);
  }

  /** Dropping a prefix that ends before the first tag changes nothing after the tag. */
  lemma AfterTagDrop(s: string, tag: string, k: nat)
    requires k <= |s| && (Find(s, tag) < 0 || k <= Find(s, tag))
    ensures AfterTag(s[k..], tag) == AfterTag(s, tag)
  {
    FindDrop(s, tag, k);
    var r, u := Find(s, tag), s[k..];
    if r < 0 {
      AfterNoTag(s, tag);
      AfterNoTag(u, tag);
    } else {
      DropDrop(s, k, r - k + |tag|);
      AfterTagShift(s, u, tag, r, r - k);
    }
  }

  lemma StatusOfAfter(w: string, s: string)
    requires AfterTag(w, RETURNSTATUS_TAG) == AfterTag(s, RETURNSTATUS_TAG)
    ensures StatusIn(w) == StatusIn(s)
  {}

  lemma StatusOfSuffix(w: string, s: string)
    requires IsSuffix(w, s)
    requires Find(s, RETURNSTATUS_TAG) < 0 || |s| - |w| <= Find(s, RETURNSTATUS_TAG)
    ensures StatusIn(w) == StatusIn(s)
  {
    var k := |s| - |w|;
    AfterTagDrop(s, RETURNSTATUS_TAG, k);
    StatusOfAfter(w, s);
  }

  /** Reading the stream chunk by chunk gives the status of the whole text, provided the
      first status tag is among the last 71 characters, or there is none. */
  lemma StreamRefinesWhole(cs: seq<string>)
    requires cs != [] && |cs[|cs| - 1]| >= 1
    requires !Contains(Concat(cs[..|cs| - 1]), EOT_TAG)
    requires var i := Find(Concat(cs), RETURNSTATUS_TAG); i < 0 || |Concat(cs)| - i <= 71
    ensures CheckEotAndReturnStatus(Window(cs)) == CheckEotAndReturnStatus(Concat(cs))
  {
    EotDetected(cs);
    WindowIsSuffix(cs);
    StatusOfSuffix(Window(cs), Concat(cs));
  }

  // ----- Printed responses, cut into chunks.

  /** cs are the results of successive recv() calls that deliver s. */
  ghost predicate IsChunking(cs: seq<string>, s: string) {
    Concat(cs) == s && forall i :: 0 <= i < |cs| ==> 1 <= |cs[i]| <= RECV_BUFFER_SIZE
  }

  /** The reader's loop ends on the last chunk and not before. */
  ghost predicate StopsOnLast(cs: seq<string>) {
    && cs != []
    && SeesEot(Window(cs))
    && forall k :: 0 < k < |cs| ==> !SeesEot(Window(cs[..k]))
  }

  lemma AfterTagHere(tag: string, rest: string)
    ensures AfterTag(tag + rest, tag) == Some(rest)
  {
    FindPrefix(tag + rest, tag);
    assert (tag + rest)[|tag|..] == rest;
  }

  lemma ParsedBefore(d: string, tag: string, rest: string)
    requires tag != "" && tag[0] !in d
    ensures Find(d + (tag + rest), tag) == |d| && (d + (tag + rest))[..|d|] == d
  {
    FindSkip(d, tag + rest, tag);
    FindPrefix(tag + rest, tag);
  }

  lemma StatusAfterInt(status: int, rest: string)
    ensures StatusAfter(INT_TAG + (Dec(status) + (INT_END + rest))) == status
  {
    AfterTagHere(INT_TAG, Dec(status) + (INT_END + rest));
    DecHasNoMarkup(status);
    ParsedBefore(Dec(status), INT_END, rest);
    ParseIntOfDec(status);
  }

  lemma StatusAfterTag(status: int)
    ensures StatusIn(StatusTail(status)) == status
  {
    var ends := RETURNSTATUS_END + RESPONSE_END;
    var d := Dec(status);
    AfterTagHere(RETURNSTATUS_TAG, StatusText(status) + EOT_TAG);
    StatusAfterInt(status, ends + EOT_TAG);
    Associate(INT_TAG + d + INT_END, ends, EOT_TAG);
    Associate(INT_TAG, d, INT_END);
    Associate(INT_TAG, d + INT_END, ends + EOT_TAG);
    Associate(d, INT_END, ends + EOT_TAG);
  }

  lemma {:induction false} ConcatPrefix(cs: seq<string>, k: nat)
    requires k <= |cs|
    ensures |Concat(cs[..k])| <= |Concat(cs)|
    ensures Concat(cs[..k]) == Concat(cs)[..|Concat(cs[..k])|]
    decreases |cs|
  {
    if k == |cs| {
      assert cs[..k] == cs;
    } else {
      var init := cs[..|cs| - 1];
      ConcatPrefix(init, k);
      assert init[..k] == cs[..k];
    }
  }

  lemma {:induction false} ConcatShorter(cs: seq<string>, k: nat)
    requires k < |cs| && forall i :: 0 <= i < |cs| ==> 1 <= |cs[i]|
    ensures |Concat(cs[..k])| < |Concat(cs)|
    decreases |cs|
  {
    var init := cs[..|cs| - 1];
    if k < |init| {
      ConcatShorter(init, k);
      assert init[..k] == cs[..k];
    }
  }

  lemma OccursExtends(p: string, c: string, t: string, i: nat)
    requires OccursAt(p, t, i)
    ensures OccursAt(p + c, t, i)
  {
    assert (p + c)[i..i + |t|] == p[i..i + |t|];
  }

  lemma PrefixLacksMark(s: string, p: string, t: string)
    requires |p| < |s| && p == s[..|p|] && Find(s, t) == |s| - |t|
    ensures !Contains(p, t)
  {
    assert s == p + s[|p|..];
    if Contains(p, t) {
      FindOccurs(p, t);
      OccursExtends(p, s[|p|..], t, Find(p, t));
      FindFirst(s, t, Find(p, t));
      assert false;
    }
  }

  /** No proper prefix of a text that ends with its first end mark, cut at a chunk, contains it. */
  lemma NoEarlyEot(s: string, cs: seq<string>, k: nat)
    requires Find(s, EOT_TAG) == |s| - |EOT_TAG| && IsChunking(cs, s) && k < |cs|
    ensures !Contains(Concat(cs[..k]), EOT_TAG)
  {
    ConcatPrefix(cs, k);
    ConcatShorter(cs, k);
    PrefixLacksMark(s, Concat(cs[..k]), EOT_TAG);
  }

  lemma NoStopAt(cs: seq<string>, k: nat)
    requires 0 < k <= |cs| && |cs[k - 1]| >= 1
    requires !Contains(Concat(cs[..k - 1]), EOT_TAG) && !Contains(Concat(cs[..k]), EOT_TAG)
    ensures !SeesEot(Window(cs[..k]))
  {
    var p := cs[..k];
    assert p[..k - 1] == cs[..k - 1];
    EotDetected(p);
  }

  lemma NoEarlyStop(s: string, cs: seq<string>, k: nat)
    requires Find(s, EOT_TAG) == |s| - |EOT_TAG| && IsChunking(cs, s) && 0 < k < |cs|
    ensures !SeesEot(Window(cs[..k]))
  {
    NoEarlyEot(s, cs, k - 1);
    NoEarlyEot(s, cs, k);
    NoStopAt(cs, k);
  }

  /** The loop stops on the last chunk of such a text, and not before. */
  lemma StopsExactlyAtEnd(s: string, cs: seq<string>)
    requires 0 <= Find(s, EOT_TAG) == |s| - |EOT_TAG| && IsChunking(cs, s)
    ensures StopsOnLast(cs)
  {
    assert cs != [];
    NoEarlyEot(s, cs, |cs| - 1);
    EotDetected(cs);
    forall k | 0 < k < |cs| ensures !SeesEot(Window(cs[..k])) {
      NoEarlyStop(s, cs, k);
    }
  }

  /** The fixed text around the status is 57 characters long. */
  lemma TailLength(status: int)
    ensures |StatusTail(status)| == 57 + |Dec(status)|
  {}

  /** A window that holds the whole tail gives its status. */
  lemma StatusOfTail(s: string, tail: string, w: string)
    requires ReadsAs(s, tail) && IsSuffix(w, s) && |w| >= |tail|
    ensures StatusIn(w) == StatusIn(tail)
  {
    StatusOfSuffix(w, s);
    StatusOfSuffix(tail, s);
  }

  /** A window that begins after the '<' of the status tag shows no status. */
  lemma StatusCutOff(status: int, w: string)
    requires IsSuffix(w, StatusTail(status)) && |w| < |StatusTail(status)|
    ensures StatusIn(w) == NO_RETURN_STATUS_YET
  {
    AfterStatusTag(status);
    StatusTagIsOneMark();
    FindInCutTag(RETURNSTATUS_TAG, StatusText(status) + EOT_TAG, w);
    NoStatusTag(w);
  }

  lemma SuffixOfSuffix(w: string, t: string, s: string)
    requires IsSuffix(w, s) && IsSuffix(t, s) && |w| <= |t|
    ensures IsSuffix(w, t)
  {}

  lemma NoStatusTag(w: string)
    requires Find(w, RETURNSTATUS_TAG) < 0
    ensures StatusIn(w) == NO_RETURN_STATUS_YET
  {}

  lemma StatusTagIsOneMark()
    ensures RETURNSTATUS_TAG[0] !in RETURNSTATUS_TAG[1..]
  {}

  lemma FindInCutTag(tag: string, rest: string, w: string)
    requires tag != "" && tag[0] !in tag[1..] && Find(rest, tag) == -1
    requires IsSuffix(w, tag + rest) && |w| < |tag + rest|
    ensures Find(w, tag) == -1
  {
    var u := tag[1..] + rest;
    FindSkip(tag[1..], rest, tag);
    assert w == u[|u| - |w|..];
    FindDrop(u, tag, |u| - |w|);
  }

  /** A text that ends with a short enough tail, read in any chunks, gives the status of the tail on the
      last chunk, and stops on no earlier one. */
  lemma ReadBack(s: string, tail: string, cs: seq<string>)
    requires ReadsAs(s, tail) && IsChunking(cs, s) && |EOT_TAG| <= |tail| <= 71
    ensures StopsOnLast(cs)
    ensures CheckEotAndReturnStatus(Window(cs)) == (true, StatusIn(tail))
  {
    StopsExactlyAtEnd(s, cs);
    WindowIsSuffix(cs);
    StatusOfTail(s, tail, Window(cs));
  }

  // ----- The bound of 14 characters is exact.

  /** s in pieces of two bytes, the last of two or three. */
  function Pairs(s: string): seq<string>
    requires |s| >= 2
  {
    if |s| <= 3 then [s] else Pairs(s[..|s| - 2]) + [s[|s| - 2..]]
  }

  lemma {:induction false} PairsFacts(s: string)
    requires |s| >= 2
    ensures IsChunking(Pairs(s), s) && Pairs(s) != []
    ensures |Pairs(s)[|Pairs(s)| - 1]| >= 2
  {
    if |s| <= 3 {
      assert Concat([s]) == s by { assert [s][..0] == []; }
    } else {
      PairsFacts(s[..|s| - 2]);
      var a := Pairs(s[..|s| - 2]);
      assert Pairs(s)[..|a|] == a;
    }
  }

  /** A chunking that leaves the last byte alone, after a tail of exactly 70 bytes. */
  lemma LastByteAlone(s: string) returns (cs: seq<string>)
    requires |s| >= 73
    ensures IsChunking(cs, s) && cs != [] && |Window(cs)| == 71
  {
    var p := s[..|s| - 1];
    var a := Pairs(p);
    PairsFacts(p);
    cs := a + [s[|s| - 1..]];
    assert cs[..|a|] == a;
    WindowIsSuffix(a);
    assert |PrevBuff(a)| == 70;
  }

  /** Every chunking of a text that ends with the tail of a status gives that status if and only if the
      status is at most 14 characters long. */
  lemma StatusExact(s: string, status: int)
    requires ReadsAs(s, StatusTail(status))
    ensures (forall cs :: IsChunking(cs, s) ==> cs != [] && StatusIn(Window(cs)) == status) <==> |Dec(status)| <= 14
  {
    TailLength(status);
    StatusAfterTag(status);
    if |Dec(status)| <= 14 {
      forall cs | IsChunking(cs, s) ensures cs != [] && StatusIn(Window(cs)) == status {
        ReadBack(s, StatusTail(status), cs);
      }
    } else {
      var cs := LastByteAlone(s);
      WindowIsSuffix(cs);
      SuffixOfSuffix(Window(cs), StatusTail(status), s);
      StatusCutOff(status, Window(cs));
      ShortStatus();
    }
  }

  lemma ShortStatus()
    ensures |Dec(NO_RETURN_STATUS_YET)| == 4
  {
    assert Digits(999) == Digits(99) + Digits(9);
    assert Digits(99) == Digits(9) + Digits(9);
  }

  /** End to end, for every response: the reader stops on the last chunk of what is printed, however it
      is cut; and it always has the status that was printed if and only if that has at most 14 characters. */
  lemma EndToEnd(r: Response)
    requires Printable(r)
    ensures forall cs :: IsChunking(cs, PrintResponse(r)) ==> StopsOnLast(cs)
    ensures (forall cs :: IsChunking(cs, PrintResponse(r)) ==> cs != [] && StatusIn(Window(cs)) == r.status)
            <==> |Dec(r.status)| <= 14
  {
    PrintedReadsAs(r);
    StatusExact(PrintResponse(r), r.status);
    forall cs | IsChunking(cs, PrintResponse(r)) ensures StopsOnLast(cs) {
      StopsExactlyAtEnd(PrintResponse(r), cs);
    }
  }
}
