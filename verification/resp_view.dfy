/** A printed response is read back with everything in it. */
module RespView {
  import opened Strings
  import opened XmlEscape
  import opened XmltpTokens
  import opened XmltpWriter
  import opened RespText
  import opened RespItems
  import opened RespParse
  import opened RespParts

  // ----- A whole response

  lemma WithinReads<T>(name: string, inside: seq<Item>, xs: seq<T>, at: seq<Item> -> bool,
                       read: seq<Item> -> Option<(T, seq<Item>)>, rest: seq<Item>)
    requires ReadList(inside, at, read) == Some((xs, Close(name, "", rest)))
    ensures ReadWithin(Open(name, inside), name, at, read) == Some((xs, rest))
  {
    OpenReads(name, inside);
    CloseReads(name, "", rest);
  }

  /** A list that is left out, or begins with its own mark, does not begin with another one. */
  lemma OtherMark(name: string, inside: seq<Item>, mark: string)
    requires mark != name
    ensures !IsAt(Open(name, inside), mark)
  {}

  lemma ListTexts()
    ensures TagText(RESULTSETSLIST) == "resultsetslist" && TagText(OUTPARAMS) == "outparams"
    ensures TagText(MSGLIST) == "msglist"
  {}

  lemma SetsListReads(rs: seq<ResultSet>, rest: seq<Item>)
    requires SetsFit(rs) && (forall i :: 0 <= i < |rs| ==> CleanSet(rs[i])) && !IsAt(rest, "resultsetslist")
    ensures Paired(ResultSetsTokens(rs))
    ensures ReadWithin(Items(ResultSetsTokens(rs)) + rest, "resultsetslist", AtSet, ReadSet)
            == Some((ShownSets(rs), rest))
  {
    if rs == [] {
      NoItems(ResultSetsTokens(rs), rest);
      assert ShownSets(rs) == [];
    } else {
      var x := Close("resultsetslist", "", rest);
      ListTexts();
      CloseReads("resultsetslist", "", rest);
      SetsRead(rs, x);
      WrappedItems(RESULTSETSLIST, "resultsetslist", SetsTokens(rs), rest);
      WithinReads("resultsetslist", Items(SetsTokens(rs)) + x, ShownSets(rs), AtSet, ReadSet, rest);
    }
  }

  lemma NoItems(ts: seq<Token>, rest: seq<Item>)
    requires ts == []
    ensures Paired(ts) && Items(ts) + rest == rest
  {}

  lemma ParamsListReads(ps: seq<Param>, rest: seq<Item>)
    requires (forall i :: 0 <= i < |ps| ==> CleanParam(ps[i])) && !IsAt(rest, "outparams")
    ensures Paired(OutParamsTokens(ps))
    ensures ReadWithin(Items(OutParamsTokens(ps)) + rest, "outparams", AtParam, ReadParam)
            == Some((ShownParams(ps), rest))
    ensures !IsAt(rest, "resultsetslist") ==> !IsAt(Items(OutParamsTokens(ps)) + rest, "resultsetslist")
  {
    if ps == [] {
      NoItems(OutParamsTokens(ps), rest);
      assert ShownParams(ps) == [];
    } else {
      var x := Close("outparams", "", rest);
      ListTexts();
      CloseReads("outparams", "", rest);
      ParamsRead(ps, x);
      WrappedItems(OUTPARAMS, "outparams", ParamsTokens(ps), rest);
      WithinReads("outparams", Items(ParamsTokens(ps)) + x, ShownParams(ps), AtParam, ReadParam, rest);
      OtherMark("outparams", Items(ParamsTokens(ps)) + x, "resultsetslist");
    }
  }

  lemma MsgListReads(ms: seq<Msg>, rest: seq<Item>)
    requires !IsAt(rest, "msglist")
    ensures Paired(MsgListTokens(ms))
    ensures ReadWithin(Items(MsgListTokens(ms)) + rest, "msglist", AtMsg, ReadMsg) == Some((ms, rest))
    ensures !IsAt(rest, "resultsetslist") ==> !IsAt(Items(MsgListTokens(ms)) + rest, "resultsetslist")
    ensures !IsAt(rest, "outparams") ==> !IsAt(Items(MsgListTokens(ms)) + rest, "outparams")
  {
    if ms == [] {
      NoItems(MsgListTokens(ms), rest);
    } else {
      var x := Close("msglist", "", rest);
      ListTexts();
      CloseReads("msglist", "", rest);
      MsgsRead(ms, x);
      WrappedItems(MSGLIST, "msglist", MsgsTokens(ms), rest);
      WithinReads("msglist", Items(MsgsTokens(ms)) + x, ms, AtMsg, ReadMsg, rest);
      OtherMark("msglist", Items(MsgsTokens(ms)) + x, "resultsetslist");
      OtherMark("msglist", Items(MsgsTokens(ms)) + x, "outparams");
    }
  }

  function TailIt(status: int): seq<Item> {
    Open("returnstatus", InPair("int", Dec(status), Close("returnstatus", "", Close("response", "", Open("EOT/", [])))))
  }

  lemma TailItReads(status: int)
    ensures ReadTail(TailIt(status)) == Some(status)
  {
    OpenReads("EOT/", []);
    var x3 := Open("EOT/", []);
    CloseReads("response", "", x3);
    var x2 := Close("response", "", x3);
    CloseReads("returnstatus", "", x2);
    var x1 := Close("returnstatus", "", x2);
    IntReads("int", status, x1);
    OpenReads("returnstatus", InPair("int", Dec(status), x1));
  }

  lemma TailTexts()
    ensures TagText(RETURNSTATUS) == "returnstatus" && TagText(RESPONSE) == "response" && TagText(EOT) == "EOT/"
    ensures TagText(RESET) == "RESET/" && TagText(XMLVERSION) == XML_VERSION
  {}

  lemma TailItems(status: int)
    ensures Paired(TailTokens(status)) && Items(TailTokens(status)) + [] == TailIt(status)
  {
    var x3 := Open("EOT/", []);
    var x2 := Close("response", "", x3);
    TailTexts();
    OneMark(Tag(EOT));
    OneMark(End(RESPONSE));
    DecHasNoMarkup(status);
    ElemItems(INT, "int", Dec(status), Close("returnstatus", "", x2));
    WrappedItems(RETURNSTATUS, "returnstatus", Elem(INT, Dec(status)), x2);
    Join3(StatusTokens(status), [End(RESPONSE)], [Tag(EOT)], []);
  }

  function Head(reset: bool): seq<Token> {
    (if reset then [Tag(RESET)] else []) + [Tag(XMLVERSION)] + [Tag(RESPONSE)]
  }

  function HeadIt(reset: bool, rest: seq<Item>): seq<Item> {
    var x := Open(XML_VERSION, Open("response", rest));
    if reset then Open("RESET/", x) else x
  }

  lemma HeadItems(reset: bool, rest: seq<Item>)
    ensures Paired(Head(reset)) && Items(Head(reset)) + rest == HeadIt(reset, rest)
  {
    TailTexts();
    OneMark(Tag(RESET));
    OneMark(Tag(XMLVERSION));
    OneMark(Tag(RESPONSE));
    NoItems([], Open(XML_VERSION, Open("response", rest)));
    Join3(if reset then [Tag(RESET)] else [], [Tag(XMLVERSION)], [Tag(RESPONSE)], rest);
  }

  /** What the reader sees of a response. */
  function Shown(r: Response): Reading
    requires SetsFit(r.resultSets)
  {
    Reading(r.reset, ShownSets(r.resultSets), ShownParams(r.outParams), r.msgs, r.status)
  }

  lemma HeadReads(reset: bool, x1: seq<Item>, x2: seq<Item>, x3: seq<Item>, x4: seq<Item>, sets: seq<SetRead>,
                  params: seq<ParamRead>, msgs: seq<Msg>, status: int)
    requires ReadWithin(x1, "resultsetslist", AtSet, ReadSet) == Some((sets, x2))
    requires ReadWithin(x2, "outparams", AtParam, ReadParam) == Some((params, x3))
    requires ReadWithin(x3, "msglist", AtMsg, ReadMsg) == Some((msgs, x4)) && ReadTail(x4) == Some(status)
    ensures ReadItems(HeadIt(reset, x1)) == Some(Reading(reset, sets, params, msgs, status))
  {
    OpenReads("response", x1);
    OpenReads(XML_VERSION, Open("response", x1));
    OpenReads("RESET/", Open(XML_VERSION, Open("response", x1)));
  }

  lemma BodyItems(r: Response, x4: seq<Item>)
    requires SetsFit(r.resultSets) && Paired(ResultSetsTokens(r.resultSets)) && Paired(OutParamsTokens(r.outParams))
    requires Paired(MsgListTokens(r.msgs))
    ensures Paired(BodyTokens(r))
    ensures Items(BodyTokens(r)) + x4
            == HeadIt(r.reset, Items(ResultSetsTokens(r.resultSets))
                               + (Items(OutParamsTokens(r.outParams)) + (Items(MsgListTokens(r.msgs)) + x4)))
  {
    var sets, params, msgs := ResultSetsTokens(r.resultSets), OutParamsTokens(r.outParams), MsgListTokens(r.msgs);
    var x3 := Items(msgs) + x4;
    HeadItems(r.reset, Items(sets) + (Items(params) + x3));
    Join3(Head(r.reset), sets, params, x3);
    Join2(Head(r.reset) + sets + params, msgs, x4);
    assert BodyTokens(r) == Head(r.reset) + sets + params + msgs;
  }

  lemma TailBegins(status: int, mark: string)
    requires mark in {"resultsetslist", "outparams", "msglist"}
    ensures !IsAt(TailIt(status), mark)
  {
    assert "returnstatus"[2] == 't' && "resultsetslist"[2] == 's' && "outparams"[0] == 'o' && "msglist"[0] == 'm';
    OtherMark("returnstatus", TailIt(status)[1..], mark);
  }

  lemma ListsRead(r: Response)
    requires Printable(r)
    ensures Paired(ResultSetsTokens(r.resultSets)) && Paired(OutParamsTokens(r.outParams))
    ensures Paired(MsgListTokens(r.msgs))
    ensures ReadItems(HeadIt(r.reset, Items(ResultSetsTokens(r.resultSets))
                                      + (Items(OutParamsTokens(r.outParams))
                                         + (Items(MsgListTokens(r.msgs)) + TailIt(r.status)))))
            == Some(Shown(r))
  {
    var x4 := TailIt(r.status);
    TailBegins(r.status, "resultsetslist");
    TailBegins(r.status, "outparams");
    TailBegins(r.status, "msglist");
    TailItReads(r.status);
    MsgListReads(r.msgs, x4);
    var x3 := Items(MsgListTokens(r.msgs)) + x4;
    ParamsListReads(r.outParams, x3);
    var x2 := Items(OutParamsTokens(r.outParams)) + x3;
    SetsListReads(r.resultSets, x2);
    var x1 := Items(ResultSetsTokens(r.resultSets)) + x2;
    HeadReads(r.reset, x1, x2, x3, x4, ShownSets(r.resultSets), ShownParams(r.outParams), r.msgs, r.status);
  }

  lemma TwoParts(body: seq<Token>, tail: seq<Token>, items: seq<Item>)
    requires Paired(body) && Paired(tail) && Items(tail) + [] == items
    ensures Paired(body + tail) && Items(body + tail) == Items(body) + items
  {
    RespItems.Join(body, tail);
  }

  lemma WholeReads(r: Response)
    requires Printable(r)
    ensures Paired(ResponseTokens(r)) && ReadItems(Items(ResponseTokens(r))) == Some(Shown(r))
  {
    TailItems(r.status);
    ListsRead(r);
    BodyItems(r, TailIt(r.status));
    TwoParts(BodyTokens(r), TailTokens(r.status), TailIt(r.status));
  }

  // ----- The meaning of what is read

  /** The tag that a type of value stands in, by its JDBC type. */
  predicate IsKind(kind: string, jType: int) {
    && (kind == "date" <==> 91 <= jType <= 93)
    && (kind == "int" <==> jType in {-7, -6, -5, 4, 5})
    && (kind == "num" <==> jType in {2, 3, 6, 7, 8})
    && kind in {"date", "int", "num", "str"}
  }

  /** The text stands for the value: a string is what undoing the escapes gives. */
  predicate StandsFor(text: string, v: Value) {
    match v case Str(s) => UnEscapeXml(text) == s case Other(repr) => text == repr
  }

  predicate CellAgrees(c: Cell, jType: int, x: CellRead) {
    && IsKind(x.kind, jType)
    && match c
       case Pair(v, n) => StandsFor(x.text, v) && x.isNull == n
       case Bare(Some(v)) => StandsFor(x.text, v) && x.isNull == 0
       case Bare(None) => x.text == "None" && x.isNull == 1
  }

  predicate SetAgrees(r: ResultSet, x: SetRead) {
    && x.cols == r.cols && |x.rows| == x.nbRows == |r.rows|
    && forall i :: 0 <= i < |r.rows| ==> RowAgrees(r.rows[i], r.cols, x.rows[i])
  }

  predicate RowAgrees(row: seq<Cell>, cols: seq<Col>, x: seq<CellRead>) {
    && |x| == |row| <= |cols|
    && forall i :: 0 <= i < |row| ==> CellAgrees(row[i], cols[i].typ, x[i])
  }

  predicate ParamAgrees(p: Param, x: ParamRead) {
    && (x.name, x.jType, x.isNull, x.isOutput, x.sz) == (p.name, p.jType, p.isNull, p.isOutput, p.sz)
    && IsKind(x.kind, p.jType) && StandsFor(x.text, p.val)
  }

  predicate Agrees(r: Response, x: Reading) {
    && x.reset == r.reset && x.msgs == r.msgs && x.status == r.status
    && |x.sets| == |r.resultSets| && (forall i :: 0 <= i < |x.sets| ==> SetAgrees(r.resultSets[i], x.sets[i]))
    && |x.params| == |r.outParams| && (forall i :: 0 <= i < |x.params| ==> ParamAgrees(r.outParams[i], x.params[i]))
  }

  lemma KindIs(jType: int)
    ensures IsKind(TagText(ValueTag(jType)), jType)
  {
    assert "date"[0] == 'd' && "int"[0] == 'i' && "num"[0] == 'n' && "str"[0] == 's';
  }

  lemma ValueStands(v: Value)
    ensures StandsFor(PrepValueForXml(v), v)
  {
    if v.Str? { PrepValueRoundTrip(v.s); }
  }

  lemma CellStands(c: Cell, jType: int)
    ensures CellAgrees(c, jType, ShownCell(c, jType))
  {
    KindIs(jType);
    match c {
      case Pair(v, _) => ValueStands(v);
      case Bare(o) => if o.Some? { ValueStands(o.value); }
    }
  }

  lemma SetStands(r: ResultSet)
    requires RowsFit(r.rows, r.cols)
    ensures SetAgrees(r, ShownSet(r))
  {
    forall i | 0 <= i < |r.rows| ensures RowAgrees(r.rows[i], r.cols, ShownRow(r.rows[i], r.cols)) {
      var row := r.rows[i];
      forall j | 0 <= j < |row| ensures CellAgrees(row[j], r.cols[j].typ, ShownRow(row, r.cols)[j]) {
        CellStands(row[j], r.cols[j].typ);
      }
    }
  }

  lemma ShownAgrees(r: Response)
    requires Printable(r)
    ensures Agrees(r, Shown(r))
  {
    var x := Shown(r);
    forall i | 0 <= i < |x.sets| ensures SetAgrees(r.resultSets[i], x.sets[i]) {
      SetStands(r.resultSets[i]);
    }
    forall i | 0 <= i < |x.params| ensures ParamAgrees(r.outParams[i], x.params[i]) {
      KindIs(r.outParams[i].jType);
      ValueStands(r.outParams[i].val);
    }
  }

  /** Every response that is printed can be read back, by a reader that knows only the tags, and agrees with what
      was printed in everything: the columns, the values, their null indicators, the number of rows, the output
      parameters, the messages and the return status. */
  lemma ReadsBack(r: Response)
    requires Printable(r)
    ensures ReadResponse(PrintResponse(r)).Some? && Agrees(r, ReadResponse(PrintResponse(r)).value)
  {
    WholeReads(r);
    CutPrint(ResponseTokens(r));
    ShownAgrees(r);
  }

  function ValueOf(c: Cell): Value {
    match c case Pair(v, _) => v case Bare(o) => if o.Some? then o.value else Other("None")
  }

  function NullOf(c: Cell): int {
    match c case Pair(_, n) => n case Bare(o) => if o.Some? then 0 else 1
  }

  /** They are the same, unless one of them is a string and the other is not. */
  predicate SameValue(v: Value, w: Value) { v.Str? == w.Str? ==> v == w }

  lemma SameText(text: string, v: Value, w: Value)
    requires StandsFor(text, v) && StandsFor(text, w)
    ensures SameValue(v, w)
  {}

  lemma CellsAlike(c: Cell, d: Cell, jType: int, x: CellRead)
    requires CellAgrees(c, jType, x) && CellAgrees(d, jType, x)
    ensures NullOf(c) == NullOf(d) && SameValue(ValueOf(c), ValueOf(d))
  {}

  lemma SetsAlike(r: ResultSet, q: ResultSet, x: SetRead, j: nat, k: nat)
    requires SetAgrees(r, x) && SetAgrees(q, x)
    ensures r.cols == q.cols && |r.rows| == |q.rows|
    ensures j < |r.rows| ==> |r.rows[j]| == |q.rows[j]|
    ensures j < |r.rows| && k < |r.rows[j]| ==>
              var c, d := r.rows[j][k], q.rows[j][k]; NullOf(c) == NullOf(d) && SameValue(ValueOf(c), ValueOf(d))
  {
    if j < |r.rows| {
      assert RowAgrees(r.rows[j], r.cols, x.rows[j]) && RowAgrees(q.rows[j], q.cols, x.rows[j]);
      if k < |r.rows[j]| { CellsAlike(r.rows[j][k], q.rows[j][k], r.cols[k].typ, x.rows[j][k]); }
    }
  }

  lemma ParamsAlike(p: Param, q: Param, x: ParamRead)
    requires ParamAgrees(p, x) && ParamAgrees(q, x)
    ensures p.(val := q.val) == q && SameValue(p.val, q.val)
  {
    SameText(x.text, p.val, q.val);
  }

  /** So two responses that print alike have the same messages, parameters and status, and the same columns,
      values and null indicators. */
  lemma PrintedAlike(r: Response, q: Response, i: nat, j: nat, k: nat)
    requires Printable(r) && Printable(q) && PrintResponse(r) == PrintResponse(q)
    ensures r.msgs == q.msgs && r.status == q.status && r.reset == q.reset
    ensures |r.resultSets| == |q.resultSets| && |r.outParams| == |q.outParams|
    ensures i < |r.outParams| ==>
              var a, b := r.outParams[i], q.outParams[i]; a.(val := b.val) == b && SameValue(a.val, b.val)
    ensures i < |r.resultSets| ==>
              var a, b := r.resultSets[i], q.resultSets[i];
              && a.cols == b.cols && |a.rows| == |b.rows| && (j < |a.rows| ==> |a.rows[j]| == |b.rows[j]|)
              && (j < |a.rows| && k < |a.rows[j]| ==>
                    && NullOf(a.rows[j][k]) == NullOf(b.rows[j][k])
                    && SameValue(ValueOf(a.rows[j][k]), ValueOf(b.rows[j][k])))
  {
    ReadsBack(r);
    ReadsBack(q);
    var x := ReadResponse(PrintResponse(r)).value;
    if i < |r.resultSets| { SetsAlike(r.resultSets[i], q.resultSets[i], x.sets[i], j, k); }
    if i < |r.outParams| { ParamsAlike(r.outParams[i], q.outParams[i], x.params[i]); }
  }
}
