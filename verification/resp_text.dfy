/** The text of a printed response, seen by someone who searches it for tags. */
module RespText {
  import opened Strings
  import opened XmlEscape
  import opened Markup
  import opened XmltpTokens
  import opened XmltpWriter

  predicate CleanValue(v: Value) { v.Other? ==> '<' !in v.repr }

  predicate CleanCell(c: Cell) {
    match c case Pair(v, _) => CleanValue(v) case Bare(o) => o.Some? ==> CleanValue(o.value)
  }

  predicate CleanRow(row: seq<Cell>) { forall i :: 0 <= i < |row| ==> CleanCell(row[i]) }

  predicate CleanCols(cols: seq<Col>) { forall i :: 0 <= i < |cols| ==> '<' !in cols[i].name }

  predicate CleanSet(r: ResultSet) {
    CleanCols(r.cols) && forall i :: 0 <= i < |r.rows| ==> CleanRow(r.rows[i])
  }

  predicate CleanParam(p: Param) { '<' !in p.name && CleanValue(p.val) }

  /** Names, which are printed as they are, have no '<', nor has the repr() of a non-string;
      no row is longer than its column list. Every string value is allowed. */
  predicate Printable(r: Response) {
    && SetsFit(r.resultSets)
    && (forall i :: 0 <= i < |r.resultSets| ==> CleanSet(r.resultSets[i]))
    && (forall i :: 0 <= i < |r.outParams| ==> CleanParam(r.outParams[i]))
  }

  // ----- What precedes the return status is body text.

  lemma BodyConcat(a: seq<Token>, b: seq<Token>)
    requires Body(a) && Body(b)
    ensures Body(a + b)
  {}

  lemma DecHasNoMarkup(n: int)
    ensures '<' !in Dec(n) && '<' !in Pad2(n)
  {}

  lemma ElemIsBody(tag: TagName, text: string)
    requires !tag.EOT? && !tag.RETURNSTATUS? && '<' !in text
    ensures Body(Elem(tag, text))
  {}

  lemma WrappedIsBody(tag: TagName, ts: seq<Token>)
    requires !tag.EOT? && !tag.RETURNSTATUS? && Body(ts)
    ensures Body(Wrapped(tag, ts))
  {}

  lemma SzIsBody(sz: Option<int>)
    ensures Body(SzTokens(sz))
  {
    if sz.Some? { DecHasNoMarkup(sz.value); ElemIsBody(SZ, Dec(sz.value)); }
  }

  lemma ValueIsText(v: Value)
    requires CleanValue(v)
    ensures '<' !in PrepValueForXml(v)
  {
    if v.Str? { PrepValueRoundTrip(v.s); }
  }

  lemma {:induction false} ColsAreBody(cols: seq<Col>)
    requires CleanCols(cols)
    ensures Body(ColsTokens(cols))
  {
    if cols != [] {
      var k := |cols| - 1;
      ColsAreBody(cols[..k]);
      var c := cols[k];
      DecHasNoMarkup(c.typ);
      ElemIsBody(NAME, c.name);
      ElemIsBody(INT, Dec(c.typ));
      SzIsBody(c.sz);
      assert Body(ColTokens(c));
      BodyConcat(ColsTokens(cols[..k]), ColTokens(c));
    }
  }

  lemma CellIsBody(c: Cell, jType: int)
    requires CleanCell(c)
    ensures Body(CellTokens(c, jType))
  {
    match c {
      case Pair(v, _) => ValueIsText(v);
      case Bare(o) => if o.Some? { ValueIsText(o.value); }
    }
    DecHasNoMarkup(CellNull(c));
    ElemIsBody(ValueTag(jType), CellText(c));
    ElemIsBody(ISNULL, Dec(CellNull(c)));
    BodyConcat(Elem(ValueTag(jType), CellText(c)), Elem(ISNULL, Dec(CellNull(c))));
  }

  lemma {:induction false} CellsAreBody(row: seq<Cell>, cols: seq<Col>)
    requires CleanRow(row) && |row| <= |cols|
    ensures Body(CellsTokens(row, cols))
  {
    if row != [] {
      var k := |row| - 1;
      CellsAreBody(row[..k], cols);
      CellIsBody(row[k], cols[k].typ);
      BodyConcat(CellsTokens(row[..k], cols), CellTokens(row[k], cols[k].typ));
    }
  }

  lemma {:induction false} RowsAreBody(rows: seq<seq<Cell>>, cols: seq<Col>)
    requires RowsFit(rows, cols) && forall i :: 0 <= i < |rows| ==> CleanRow(rows[i])
    ensures Body(RowsTokens(rows, cols))
  {
    if rows != [] {
      var k := |rows| - 1;
      RowsAreBody(rows[..k], cols);
      CellsAreBody(rows[k], cols);
      WrappedIsBody(ROW, CellsTokens(rows[k], cols));
      BodyConcat(RowsTokens(rows[..k], cols), RowTokens(rows[k], cols));
    }
  }

  lemma SetIsBody(r: ResultSet)
    requires RowsFit(r.rows, r.cols) && CleanSet(r)
    ensures Body(ResultSetTokens(r))
  {
    ColsAreBody(r.cols);
    WrappedIsBody(COLNAMES, ColsTokens(r.cols));
    RowsAreBody(r.rows, r.cols);
    DecHasNoMarkup(|r.rows|);
    ElemIsBody(INT, Dec(|r.rows|));
    WrappedIsBody(NBROWS, Elem(INT, Dec(|r.rows|)));
    BodyConcat([Text(" ")], Wrapped(NBROWS, Elem(INT, Dec(|r.rows|))));
    var a := [Tag(RESULTSET)] + Wrapped(COLNAMES, ColsTokens(r.cols));
    BodyConcat([Tag(RESULTSET)], Wrapped(COLNAMES, ColsTokens(r.cols)));
    BodyConcat(a, [Tag(ROWS)]);
    BodyConcat(a + [Tag(ROWS)], RowsTokens(r.rows, r.cols));
    var b := a + [Tag(ROWS)] + RowsTokens(r.rows, r.cols);
    BodyConcat(b, [End(ROWS)]);
    BodyConcat(b + [End(ROWS)], NbRowsTokens(|r.rows|));
    BodyConcat(b + [End(ROWS)] + NbRowsTokens(|r.rows|), [End(RESULTSET)]);
  }

  lemma {:induction false} SetsAreBody(rs: seq<ResultSet>)
    requires SetsFit(rs) && forall i :: 0 <= i < |rs| ==> CleanSet(rs[i])
    ensures Body(SetsTokens(rs))
  {
    if rs != [] {
      var k := |rs| - 1;
      SetsAreBody(rs[..k]);
      SetIsBody(rs[k]);
      BodyConcat(SetsTokens(rs[..k]), ResultSetTokens(rs[k]));
    }
  }

  lemma ParamIsBody(p: Param)
    requires CleanParam(p)
    ensures Body(ParamTokens(p))
  {
    ValueIsText(p.val);
    DecHasNoMarkup(p.jType);
    var attr := (if p.isNull then "1" else "0") + (if p.isOutput then "1" else "0") + Pad2(p.jType);
    var head := [Tag(PARAM)] + [Tag(NAME)] + [Text(p.name)] + [End(NAME)];
    var v := Elem(ValueTag(p.jType), PrepValueForXml(p.val));
    ElemIsBody(ValueTag(p.jType), PrepValueForXml(p.val));
    ElemIsBody(ATTR, attr);
    SzIsBody(p.sz);
    BodyConcat(head, v);
    BodyConcat(head + v, Elem(ATTR, attr));
    BodyConcat(head + v + Elem(ATTR, attr), SzTokens(p.sz));
    BodyConcat(head + v + Elem(ATTR, attr) + SzTokens(p.sz), [End(PARAM)]);
  }

  lemma {:induction false} ParamsAreBody(ps: seq<Param>)
    requires forall i :: 0 <= i < |ps| ==> CleanParam(ps[i])
    ensures Body(ParamsTokens(ps))
  {
    if ps != [] {
      var k := |ps| - 1;
      ParamsAreBody(ps[..k]);
      ParamIsBody(ps[k]);
      BodyConcat(ParamsTokens(ps[..k]), ParamTokens(ps[k]));
    }
  }

  lemma MsgIsBody(m: Msg)
    ensures Body(MsgTokens(m))
  {
    DecHasNoMarkup(m.no);
    EscapeIsOnePass(m.text);
    EscapeSetClean(m.text);
    ElemIsBody(INT, Dec(m.no));
    ElemIsBody(STR, EscapeForXml(m.text));
    BodyConcat([Tag(MSG)], Elem(INT, Dec(m.no)));
    BodyConcat([Tag(MSG)] + Elem(INT, Dec(m.no)), Elem(STR, EscapeForXml(m.text)));
    BodyConcat([Tag(MSG)] + Elem(INT, Dec(m.no)) + Elem(STR, EscapeForXml(m.text)), [End(MSG)]);
  }

  lemma {:induction false} MsgsAreBody(ms: seq<Msg>)
    ensures Body(MsgsTokens(ms))
  {
    if ms != [] {
      var k := |ms| - 1;
      MsgsAreBody(ms[..k]);
      MsgIsBody(ms[k]);
      BodyConcat(MsgsTokens(ms[..k]), MsgTokens(ms[k]));
    }
  }

  lemma BodyTokensAreBody(r: Response)
    requires Printable(r)
    ensures Body(BodyTokens(r))
  {
    SetsAreBody(r.resultSets);
    WrappedIsBody(RESULTSETSLIST, SetsTokens(r.resultSets));
    ParamsAreBody(r.outParams);
    WrappedIsBody(OUTPARAMS, ParamsTokens(r.outParams));
    MsgsAreBody(r.msgs);
    WrappedIsBody(MSGLIST, MsgsTokens(r.msgs));
    var a := ResetTokens(r) + [Tag(XMLVERSION)] + [Tag(RESPONSE)];
    BodyConcat(a, ResultSetsTokens(r.resultSets));
    BodyConcat(a + ResultSetsTokens(r.resultSets), OutParamsTokens(r.outParams));
    BodyConcat(a + ResultSetsTokens(r.resultSets) + OutParamsTokens(r.outParams), MsgListTokens(r.msgs));
  }

  // ----- The fixed layout of the end of a response.

  /** What stands between <returnstatus> and <EOT/>. */
  function StatusText(status: int): string {
    (INT_TAG + Dec(status) + INT_END) + (RETURNSTATUS_END + RESPONSE_END)
  }

  function MidTokens(status: int): seq<Token> {
    Elem(INT, Dec(status)) + [End(RETURNSTATUS)] + [End(RESPONSE)]
  }

  lemma PrintElem(tag: TagName, text: string)
    ensures Print(Elem(tag, text)) == Bracket(TagText(tag)) + text + Bracket("/" + TagText(tag))
  {
    PrintOne(Tag(tag));
    PrintOne(Text(text));
    PrintOne(End(tag));
    PrintConcat([Tag(tag)], [Text(text)]);
    PrintConcat([Tag(tag)] + [Text(text)], [End(tag)]);
    assert Elem(tag, text) == [Tag(tag)] + [Text(text)] + [End(tag)];
  }

  const RETURNSTATUS_END := "</returnstatus>"
  const RESPONSE_END := "</response>"

  lemma TagStrings()
    ensures Bracket(TagText(INT)) == INT_TAG && Bracket("/" + TagText(INT)) == INT_END
    ensures Bracket(TagText(RETURNSTATUS)) == RETURNSTATUS_TAG && Bracket(TagText(EOT)) == EOT_TAG
    ensures Bracket("/" + TagText(RETURNSTATUS)) == RETURNSTATUS_END
    ensures Bracket("/" + TagText(RESPONSE)) == RESPONSE_END
  {}

  lemma PrintMid(status: int)
    ensures Print(MidTokens(status)) == StatusText(status)
    ensures Body(MidTokens(status))
  {
    DecHasNoMarkup(status);
    var e := Elem(INT, Dec(status));
    PrintElem(INT, Dec(status));
    PrintOne(End(RETURNSTATUS));
    PrintOne(End(RESPONSE));
    PrintConcat(e, [End(RETURNSTATUS)]);
    PrintConcat(e + [End(RETURNSTATUS)], [End(RESPONSE)]);
    TagStrings();
    Associate(Print(e), RETURNSTATUS_END, RESPONSE_END);
  }

  /** The end of a response: the status tag, the status, the end mark. */
  lemma PrintTail(status: int)
    ensures Print(TailTokens(status)) == RETURNSTATUS_TAG + (StatusText(status) + EOT_TAG)
  {
    var mid := MidTokens(status);
    assert TailTokens(status) == [Tag(RETURNSTATUS)] + (mid + [Tag(EOT)]);
    PrintConcat([Tag(RETURNSTATUS)], mid + [Tag(EOT)]);
    PrintConcat(mid, [Tag(EOT)]);
    PrintOne(Tag(RETURNSTATUS));
    PrintOne(Tag(EOT));
    PrintMid(status);
    TagStrings();
  }

  /** In the text after the status tag that tag does not come back, and the end mark comes last. */
  lemma AfterStatusTag(status: int)
    ensures Find(StatusText(status) + EOT_TAG, RETURNSTATUS_TAG) == -1
    ensures Find(StatusText(status) + EOT_TAG, EOT_TAG) == |StatusText(status)|
  {
    PrintMid(status);
    FindStatusPastBody(MidTokens(status), EOT_TAG);
    FindEotPastBody(MidTokens(status), EOT_TAG);
    FindPrefix(EOT_TAG, EOT_TAG);
  }

  /** The end mark is not found inside the status tag. */
  lemma FindEotPastStatusTag(rest: string)
    ensures Find(RETURNSTATUS_TAG + rest, EOT_TAG) ==
            if Find(rest, EOT_TAG) < 0 then -1 else |RETURNSTATUS_TAG| + Find(rest, EOT_TAG)
  {
    TagTextsClean(RETURNSTATUS);
    TagTextsClean(EOT);
    TagTextsDiffer(RETURNSTATUS, EOT);
    TagStrings();
    FindPastPiece(Mark(TagText(RETURNSTATUS)), rest, TagText(EOT));
  }

  /** Searched as a whole, a response has its only status tag where the body ends
      and its only end mark in its last six characters. */
  lemma FindInResponse(r: Response)
    requires Printable(r)
    ensures var t := RETURNSTATUS_TAG + (StatusText(r.status) + EOT_TAG);
            && PrintResponse(r) == Print(BodyTokens(r)) + t
            && Find(PrintResponse(r), RETURNSTATUS_TAG) == |PrintResponse(r)| - |t|
            && Find(PrintResponse(r), EOT_TAG) == |PrintResponse(r)| - |EOT_TAG|
  {
    PrintConcat(BodyTokens(r), TailTokens(r.status));
    PrintTail(r.status);
    BodyTokensAreBody(r);
    AfterStatusTag(r.status);
    FindAfterBody(BodyTokens(r), StatusText(r.status) + EOT_TAG);
  }

  /** From the status tag to the end. */
  function StatusTail(status: int): string {
    RETURNSTATUS_TAG + (StatusText(status) + EOT_TAG)
  }

  /** All that a reader relies on: the text ends with the tail of its status, after something else, and
      its first status tag and its first end mark are those of the tail. */
  ghost predicate ReadsAs(s: string, tail: string) {
    && |tail| < |s| && s[|s| - |tail|..] == tail
    && Find(s, RETURNSTATUS_TAG) == |s| - |tail|
    && Find(s, EOT_TAG) == |s| - |EOT_TAG|
  }

  lemma LongPrefix(r: Response)
    requires SetsFit(r.resultSets)
    ensures |Print(BodyTokens(r))| >= 1
  {
    var a := ResetTokens(r) + [Tag(XMLVERSION)];
    PrintOne(Tag(XMLVERSION));
    PrintConcat(ResetTokens(r), [Tag(XMLVERSION)]);
    PrintConcat(a, [Tag(RESPONSE)]);
    PrintConcat(a + [Tag(RESPONSE)], ResultSetsTokens(r.resultSets));
    var b := a + [Tag(RESPONSE)] + ResultSetsTokens(r.resultSets);
    PrintConcat(b, OutParamsTokens(r.outParams));
    PrintConcat(b + OutParamsTokens(r.outParams), MsgListTokens(r.msgs));
  }

  /** What is printed can be read. */
  lemma PrintedReadsAs(r: Response)
    requires Printable(r)
    ensures ReadsAs(PrintResponse(r), StatusTail(r.status))
  {
    FindInResponse(r);
    LongPrefix(r);
  }

  lemma FindAfterBody(ts: seq<Token>, rest: string)
    requires Body(ts)
    requires Find(rest, EOT_TAG) >= 0
    ensures Find(Print(ts) + (RETURNSTATUS_TAG + rest), RETURNSTATUS_TAG) == |Print(ts)|
    ensures Find(Print(ts) + (RETURNSTATUS_TAG + rest), EOT_TAG)
            == |Print(ts)| + |RETURNSTATUS_TAG| + Find(rest, EOT_TAG)
  {
    FindStatusPastBody(ts, RETURNSTATUS_TAG + rest);
    FindEotPastBody(ts, RETURNSTATUS_TAG + rest);
    FindPrefix(RETURNSTATUS_TAG + rest, RETURNSTATUS_TAG);
    FindEotPastStatusTag(rest);
  }
}
