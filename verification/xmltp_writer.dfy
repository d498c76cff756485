/** The printers of an XML-TP response: what they put in the buffer, chunk by chunk,
    and why the end mark and the return status tag appear only at the very end. */
module XmltpWriter {
  import opened Strings
  import opened XmlEscape
  import opened XmltpTokens

  datatype Col = Col(name: string, typ: int, sz: Option<int>)
  /** A cell is a (value, isNull) pair, or a bare value where None prints as null. */
  datatype Cell = Pair(val: Value, isNull: int) | Bare(opt: Option<Value>)
  datatype ResultSet = ResultSet(cols: seq<Col>, rows: seq<seq<Cell>>)
  datatype Param = Param(name: string, val: Value, jType: int, isNull: bool, isOutput: bool, sz: Option<int>)
  datatype Msg = Msg(no: int, text: string)
  datatype Response = Response(resultSets: seq<ResultSet>, outParams: seq<Param>, msgs: seq<Msg>,
                               status: int, reset: bool)

  function ValueTag(jType: int): TagName {
    if jType in {91, 92, 93} then DATE
    else if jType in {-6, 5, -5, -7, 4} then INT
    else if jType in {2, 7, 3, 8, 6} then NUM
    else STR
  }

  /** "%02d" */
  function Pad2(n: int): (s: string)
    ensures |s| >= 2
  {
    if 0 <= n < 10 then "0" + Dec(n) else Dec(n)
  }

  // ----- What each printer writes, as tokens.

  function Elem(tag: TagName, text: string): seq<Token> {
    [Tag(tag), Text(text), End(tag)]
  }

  function SzTokens(sz: Option<int>): seq<Token> {
    match sz case None => [] case Some(n) => Elem(SZ, Dec(n))
  }

  function ColTokens(c: Col): seq<Token> {
    [Tag(COL)] + Elem(NAME, c.name) + Elem(INT, Dec(c.typ)) + SzTokens(c.sz) + [End(COL)]
  }

  function ColsTokens(cols: seq<Col>): seq<Token> {
    if cols == [] then [] else ColsTokens(cols[..|cols| - 1]) + ColTokens(cols[|cols| - 1])
  }

  function CellText(c: Cell): string {
    match c
    case Pair(v, _) => PrepValueForXml(v)
    case Bare(Some(v)) => PrepValueForXml(v)
    case Bare(None) => "None"
  }

  function CellNull(c: Cell): int {
    match c
    case Pair(_, n) => n
    case Bare(o) => if o.None? then 1 else 0
  }

  function CellTokens(c: Cell, jType: int): seq<Token> {
    Elem(ValueTag(jType), CellText(c)) + Elem(ISNULL, Dec(CellNull(c)))
  }

  function CellsTokens(row: seq<Cell>, cols: seq<Col>): seq<Token>
    requires |row| <= |cols|
  {
    if row == [] then []
    else CellsTokens(row[..|row| - 1], cols) + CellTokens(row[|row| - 1], cols[|row| - 1].typ)
  }

  function RowTokens(row: seq<Cell>, cols: seq<Col>): seq<Token>
    requires |row| <= |cols|
  {
    [Tag(ROW)] + CellsTokens(row, cols) + [End(ROW)]
  }

  /** A row with more cells than there are columns makes the printer raise IndexError. */
  predicate RowsFit(rows: seq<seq<Cell>>, cols: seq<Col>) {
    forall i :: 0 <= i < |rows| ==> |rows[i]| <= |cols|
  }

  function RowsTokens(rows: seq<seq<Cell>>, cols: seq<Col>): seq<Token>
    requires RowsFit(rows, cols)
  {
    if rows == [] then []
    else RowsTokens(rows[..|rows| - 1], cols) + RowTokens(rows[|rows| - 1], cols)
  }

  function NbRowsTokens(n: nat): seq<Token> {
    [Text(" ")] + Wrapped(NBROWS, Elem(INT, Dec(n)))
  }

  function ResultSetTokens(r: ResultSet): seq<Token>
    requires RowsFit(r.rows, r.cols)
  {
    [Tag(RESULTSET)] + Wrapped(COLNAMES, ColsTokens(r.cols)) + [Tag(ROWS)] + RowsTokens(r.rows, r.cols)
    + [End(ROWS)] + NbRowsTokens(|r.rows|) + [End(RESULTSET)]
  }

  predicate SetsFit(rs: seq<ResultSet>) {
    forall i :: 0 <= i < |rs| ==> RowsFit(rs[i].rows, rs[i].cols)
  }

  function SetsTokens(rs: seq<ResultSet>): seq<Token>
    requires SetsFit(rs)
  {
    if rs == [] then [] else SetsTokens(rs[..|rs| - 1]) + ResultSetTokens(rs[|rs| - 1])
  }

  function ParamTokens(p: Param): seq<Token> {
    [Tag(PARAM)] + [Tag(NAME)] + [Text(p.name)] + [End(NAME)] + Elem(ValueTag(p.jType), PrepValueForXml(p.val))
    + Elem(ATTR, (if p.isNull then "1" else "0") + (if p.isOutput then "1" else "0") + Pad2(p.jType))
    + SzTokens(p.sz) + [End(PARAM)]
  }

  function ParamsTokens(ps: seq<Param>): seq<Token> {
    if ps == [] then [] else ParamsTokens(ps[..|ps| - 1]) + ParamTokens(ps[|ps| - 1])
  }

  function MsgTokens(m: Msg): seq<Token> {
    [Tag(MSG)] + Elem(INT, Dec(m.no)) + Elem(STR, EscapeForXml(m.text)) + [End(MSG)]
  }

  function MsgsTokens(ms: seq<Msg>): seq<Token> {
    if ms == [] then [] else MsgsTokens(ms[..|ms| - 1]) + MsgTokens(ms[|ms| - 1])
  }

  function Wrapped(tag: TagName, ts: seq<Token>): seq<Token> {
    [Tag(tag)] + ts + [End(tag)]
  }

  function ResetTokens(r: Response): seq<Token> {
    if r.reset then [Tag(RESET)] else []
  }

  function ResultSetsTokens(rs: seq<ResultSet>): seq<Token>
    requires SetsFit(rs)
  {
    if rs == [] then [] else Wrapped(RESULTSETSLIST, SetsTokens(rs))
  }

  function OutParamsTokens(ps: seq<Param>): seq<Token> {
    if ps == [] then [] else Wrapped(OUTPARAMS, ParamsTokens(ps))
  }

  function MsgListTokens(ms: seq<Msg>): seq<Token> {
    if ms == [] then [] else Wrapped(MSGLIST, MsgsTokens(ms))
  }

  /** Everything before the return status. */
  function BodyTokens(r: Response): seq<Token>
    requires SetsFit(r.resultSets)
  {
    ResetTokens(r) + [Tag(XMLVERSION)] + [Tag(RESPONSE)] + ResultSetsTokens(r.resultSets)
    + OutParamsTokens(r.outParams) + MsgListTokens(r.msgs)
  }

  function StatusTokens(status: int): seq<Token> {
    Wrapped(RETURNSTATUS, Elem(INT, Dec(status)))
  }

  /** The return status and what follows it. */
  function TailTokens(status: int): seq<Token> {
    StatusTokens(status) + [End(RESPONSE)] + [Tag(EOT)]
  }

  function ResponseTokens(r: Response): seq<Token>
    requires SetsFit(r.resultSets)
  {
    BodyTokens(r) + TailTokens(r.status)
  }

  /** The bytes of a whole response. */
  function PrintResponse(r: Response): string
    requires SetsFit(r.resultSets)
  {
    Print(ResponseTokens(r))
  }

  // ----- The buffer and the printers that fill it.

  /** How a send ends: the socket takes some number of bytes at most, or it fails before it takes any. A
      send that takes fewer than all is diagnosed as a broken connection. */
  datatype SendEnd = Takes(bytes: nat) | InternalError

  predicate TakesAll(s: string, end: SendEnd) { end.Takes? && end.bytes >= |s| }

  function TakenOf(s: string, end: SendEnd): string {
    match end
    case Takes(n) => if n < |s| then s[..n] else s
    case InternalError => ""
  }

  class Socket {
    var wire: string   // bytes accepted by the peer
    constructor () ensures wire == "" { wire := ""; }
  }

  function Flatten(chunks: seq<seq<Token>>): seq<Token> {
    if chunks == [] then [] else Flatten(chunks[..|chunks| - 1]) + chunks[|chunks| - 1]
  }

  /** "".join() of the texts of the chunks */
  function Join(chunks: seq<seq<Token>>): string {
    if chunks == [] then "" else Join(chunks[..|chunks| - 1]) + Print(chunks[|chunks| - 1])
  }

  lemma {:induction false} JoinIsPrint(chunks: seq<seq<Token>>)
    ensures Join(chunks) == Print(Flatten(chunks))
  {
    if chunks != [] {
      var k := |chunks| - 1;
      JoinIsPrint(chunks[..k]);
      PrintConcat(Flatten(chunks[..k]), chunks[k]);
    }
  }

  /** Each chunk is text formatted from a template of tags and values, and is kept as that template. */
  class SocketBuffer {
    const sock: Socket
    var chunksList: seq<seq<Token>>

    constructor (sock: Socket)
      ensures this.sock == sock && chunksList == []
    {
      this.sock := sock;
      chunksList := [];
    }

    function Printed(): seq<Token> reads this { Flatten(chunksList) }

    method Send(ts: seq<Token>)
      modifies this
      ensures Printed() == old(Printed()) + ts
    {
      chunksList := chunksList + [ts];
      assert chunksList[..|chunksList| - 1] == old(chunksList);
    }

    /** The same, when what was printed since the beginning of some part is known to be acc. */
    method SendAfter(ts: seq<Token>, ghost p: seq<Token>, ghost acc: seq<Token>)
      requires Printed() == p + acc
      modifies this
      ensures Printed() == p + (acc + ts)
    {
      Send(ts);
      Associate(p, acc, ts);
    }

    /** One send of everything buffered. The buffer is empty afterwards even when the send fails. */
    method Flush(end: SendEnd) returns (ok: bool)
      modifies this, sock
      ensures chunksList == [] && (ok <==> TakesAll(Print(old(Printed())), end))
      ensures sock.wire == old(sock.wire) + TakenOf(Print(old(Printed())), end)
    {
      var s := Join(chunksList);
      JoinIsPrint(chunksList);
      chunksList := [];
      sock.wire := sock.wire + TakenOf(s, end);
      ok := TakesAll(s, end);
    }
  }

  lemma Associate<T>(a: seq<T>, b: seq<T>, c: seq<T>)
    ensures (a + b) + c == a + (b + c)
  {}

  method SendColNames(sock: SocketBuffer, cols: seq<Col>)
    modifies sock
    ensures sock.Printed() == old(sock.Printed()) + Wrapped(COLNAMES, ColsTokens(cols))
  {
    ghost var p := sock.Printed();
    sock.Send([Tag(COLNAMES)]);
    ghost var q := sock.Printed();
    assert q == q + ColsTokens(cols[..0]);
    for i := 0 to |cols|
      invariant sock.Printed() == q + ColsTokens(cols[..i])
    {
      sock.SendAfter(ColTokens(cols[i]), q, ColsTokens(cols[..i]));
      assert cols[..i + 1][..i] == cols[..i];
    }
    assert cols[..|cols|] == cols;
    Associate(p, [Tag(COLNAMES)], ColsTokens(cols));
    sock.SendAfter([End(COLNAMES)], p, [Tag(COLNAMES)] + ColsTokens(cols));
  }

  /** Stops, as the IndexError does, at the first cell that has no column. */
  method SendOneRow(sock: SocketBuffer, row: seq<Cell>, cols: seq<Col>) returns (ok: bool)
    modifies sock
    ensures ok == (|row| <= |cols|)
    ensures ok ==> sock.Printed() == old(sock.Printed()) + RowTokens(row, cols)
  {
    ghost var p := sock.Printed();
    sock.Send([Tag(ROW)]);
    ghost var q := sock.Printed();
    assert q == q + CellsTokens(row[..0], cols);
    for i := 0 to |row|
      invariant i <= |cols|
      invariant sock.Printed() == q + CellsTokens(row[..i], cols)
    {
      if i >= |cols| { return false; }
      sock.SendAfter(CellTokens(row[i], cols[i].typ), q, CellsTokens(row[..i], cols));
      assert row[..i + 1][..i] == row[..i];
    }
    assert row[..|row|] == row;
    Associate(p, [Tag(ROW)], CellsTokens(row, cols));
    sock.SendAfter([End(ROW)], p, [Tag(ROW)] + CellsTokens(row, cols));
    ok := true;
  }

  method SendRows(sock: SocketBuffer, rows: seq<seq<Cell>>, cols: seq<Col>) returns (ok: bool, nbRows: nat)
    modifies sock
    ensures ok == RowsFit(rows, cols)
    ensures ok ==> nbRows == |rows| && sock.Printed() == old(sock.Printed()) + RowsTokens(rows, cols)
  {
    ghost var q := sock.Printed();
    nbRows := 0;
    assert q == q + RowsTokens(rows[..0], cols);
    for i := 0 to |rows|
      invariant nbRows == i && RowsFit(rows[..i], cols)
      invariant sock.Printed() == q + RowsTokens(rows[..i], cols)
    {
      ok := SendOneRow(sock, rows[i], cols);
      if !ok { return; }
      Associate(q, RowsTokens(rows[..i], cols), RowTokens(rows[i], cols));
      assert rows[..i + 1][..i] == rows[..i];
      nbRows := nbRows + 1;
    }
    assert rows[..|rows|] == rows;
    ok := true;
  }

  method SendOneResultSet(sock: SocketBuffer, r: ResultSet) returns (ok: bool)
    modifies sock
    ensures ok == RowsFit(r.rows, r.cols)
    ensures ok ==> sock.Printed() == old(sock.Printed()) + ResultSetTokens(r)
  {
    ghost var p := sock.Printed();
    ghost var acc := [Tag(RESULTSET)];
    sock.Send([Tag(RESULTSET)]);
    SendColNames(sock, r.cols);
    Associate(p, acc, Wrapped(COLNAMES, ColsTokens(r.cols)));
    acc := acc + Wrapped(COLNAMES, ColsTokens(r.cols));
    sock.SendAfter([Tag(ROWS)], p, acc);
    acc := acc + [Tag(ROWS)];
    var nbRows;
    ok, nbRows := SendRows(sock, r.rows, r.cols);
    if !ok { return; }
    Associate(p, acc, RowsTokens(r.rows, r.cols));
    acc := acc + RowsTokens(r.rows, r.cols);
    sock.SendAfter([End(ROWS)], p, acc);
    sock.SendAfter(NbRowsTokens(nbRows), p, acc + [End(ROWS)]);
    sock.SendAfter([End(RESULTSET)], p, acc + [End(ROWS)] + NbRowsTokens(nbRows));
  }

  method SendParam(sock: SocketBuffer, p: Param)
    modifies sock
    ensures sock.Printed() == old(sock.Printed()) + ParamTokens(p)
  {
    ghost var q := sock.Printed();
    var valStr := Elem(ValueTag(p.jType), PrepValueForXml(p.val));
    var attrStr := Elem(ATTR, (if p.isNull then "1" else "0") + (if p.isOutput then "1" else "0") + Pad2(p.jType));
    sock.Send([Tag(PARAM)]);
    ghost var acc := [Tag(PARAM)];
    sock.SendAfter([Tag(NAME)], q, acc);
    acc := acc + [Tag(NAME)];
    sock.SendAfter([Text(p.name)], q, acc);
    acc := acc + [Text(p.name)];
    sock.SendAfter([End(NAME)], q, acc);
    acc := acc + [End(NAME)];
    sock.SendAfter(valStr, q, acc);
    sock.SendAfter(attrStr, q, acc + valStr);
    acc := acc + valStr + attrStr;
    if p.sz.Some? {
      sock.SendAfter(SzTokens(p.sz), q, acc);
    } else {
      assert acc == acc + SzTokens(p.sz);
    }
    sock.SendAfter([End(PARAM)], q, acc + SzTokens(p.sz));
  }

  method SendParams(sock: SocketBuffer, ps: seq<Param>)
    modifies sock
    ensures sock.Printed() == old(sock.Printed()) + ParamsTokens(ps)
  {
    ghost var q := sock.Printed();
    assert q == q + ParamsTokens(ps[..0]);
    for i := 0 to |ps|
      invariant sock.Printed() == q + ParamsTokens(ps[..i])
    {
      SendParam(sock, ps[i]);
      Associate(q, ParamsTokens(ps[..i]), ParamTokens(ps[i]));
      assert ps[..i + 1][..i] == ps[..i];
    }
    assert ps[..|ps|] == ps;
  }

  method SendOutParamsList(sock: SocketBuffer, ps: seq<Param>)
    modifies sock
    ensures sock.Printed() == old(sock.Printed()) + OutParamsTokens(ps)
  {
    ghost var p := sock.Printed();
    if ps == [] {
      assert p == p + [];
      return;
    }
    sock.Send([Tag(OUTPARAMS)]);
    SendParams(sock, ps);
    Associate(p, [Tag(OUTPARAMS)], ParamsTokens(ps));
    sock.SendAfter([End(OUTPARAMS)], p, [Tag(OUTPARAMS)] + ParamsTokens(ps));
  }

  method SendMsgList(sock: SocketBuffer, ms: seq<Msg>)
    modifies sock
    ensures sock.Printed() == old(sock.Printed()) + MsgListTokens(ms)
  {
    ghost var p := sock.Printed();
    if ms == [] {
      assert p == p + [];
      return;
    }
    sock.Send([Tag(MSGLIST)]);
    ghost var q := sock.Printed();
    assert q == q + MsgsTokens(ms[..0]);
    for i := 0 to |ms|
      invariant sock.Printed() == q + MsgsTokens(ms[..i])
    {
      sock.SendAfter(MsgTokens(ms[i]), q, MsgsTokens(ms[..i]));
      assert ms[..i + 1][..i] == ms[..i];
    }
    assert ms[..|ms|] == ms;
    Associate(p, [Tag(MSGLIST)], MsgsTokens(ms));
    sock.SendAfter([End(MSGLIST)], p, [Tag(MSGLIST)] + MsgsTokens(ms));
  }

  method SendSets(sock: SocketBuffer, rs: seq<ResultSet>) returns (ok: bool)
    modifies sock
    ensures ok == SetsFit(rs)
    ensures ok ==> sock.Printed() == old(sock.Printed()) + SetsTokens(rs)
  {
    ghost var q := sock.Printed();
    assert q == q + SetsTokens(rs[..0]);
    for i := 0 to |rs|
      invariant SetsFit(rs[..i])
      invariant sock.Printed() == q + SetsTokens(rs[..i])
    {
      ok := SendOneResultSet(sock, rs[i]);
      if !ok { return; }
      SetsPush(q, rs, i);
    }
    assert rs[..|rs|] == rs;
    ok := true;
  }

  lemma SetsPush(q: seq<Token>, rs: seq<ResultSet>, i: nat)
    requires i < |rs| && SetsFit(rs[..i]) && RowsFit(rs[i].rows, rs[i].cols)
    ensures SetsFit(rs[..i + 1])
    ensures q + SetsTokens(rs[..i]) + ResultSetTokens(rs[i]) == q + SetsTokens(rs[..i + 1])
  {
    assert rs[..i + 1][..i] == rs[..i];
    Associate(q, SetsTokens(rs[..i]), ResultSetTokens(rs[i]));
  }

  method SendResultSets(sock: SocketBuffer, rs: seq<ResultSet>) returns (ok: bool)
    modifies sock
    ensures ok == SetsFit(rs)
    ensures ok ==> sock.Printed() == old(sock.Printed()) + ResultSetsTokens(rs)
  {
    ghost var p := sock.Printed();
    if rs == [] {
      assert p == p + [];
      return true;
    }
    sock.Send([Tag(RESULTSETSLIST)]);
    ok := SendSets(sock, rs);
    if !ok { return; }
    Associate(p, [Tag(RESULTSETSLIST)], SetsTokens(rs));
    sock.SendAfter([End(RESULTSETSLIST)], p, [Tag(RESULTSETSLIST)] + SetsTokens(rs));
  }

  /** The response goes out in one send: the peer gets all of it, or as much as the send takes; and nothing
      when it cannot be printed. */
  method SendResponseOnSocket(sock: SocketBuffer, r: Response, end: SendEnd) returns (ok: bool)
    requires sock.chunksList == []
    modifies sock, sock.sock
    ensures ok <==> SetsFit(r.resultSets) && TakesAll(PrintResponse(r), end)
    ensures sock.sock.wire == old(sock.sock.wire)
                              + if SetsFit(r.resultSets) then TakenOf(PrintResponse(r), end) else ""
    ensures ok ==> sock.sock.wire == old(sock.sock.wire) + PrintResponse(r)
  {
    ok := PrintOnBuffer(sock, r);
    if !ok { return; }
    ok := sock.Flush(end);
  }

  method PrintOnBuffer(sock: SocketBuffer, r: Response) returns (ok: bool)
    requires sock.chunksList == []
    modifies sock
    ensures ok == SetsFit(r.resultSets)
    ensures ok ==> sock.Printed() == ResponseTokens(r)
  {
    ghost var acc := ResetTokens(r);
    if r.reset { sock.Send([Tag(RESET)]); }
    assert sock.Printed() == acc;
    sock.Send([Tag(XMLVERSION)]);
    sock.Send([Tag(RESPONSE)]);
    ok := SendResultSets(sock, r.resultSets);
    if !ok { return; }
    SendOutParamsList(sock, r.outParams);
    SendMsgList(sock, r.msgs);
    ghost var body := sock.Printed();
    assert body == BodyTokens(r);
    sock.Send(StatusTokens(r.status));
    sock.SendAfter([End(RESPONSE)], body, StatusTokens(r.status));
    sock.SendAfter([Tag(EOT)], body, StatusTokens(r.status) + [End(RESPONSE)]);
  }
}
