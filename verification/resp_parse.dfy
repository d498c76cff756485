/** Reading a response from its text, by the grammar of the protocol: the column names and types, every value, the
    output parameters, the messages and the return status. The reader knows nothing of the printers. */
module RespParse {
  import opened Strings
  import opened XmlEscape
  import opened RespItems
  import opened XmltpWriter

  /** A value as it is read: the tag it stands in, the text between its tags, and its null indicator. */
  datatype CellRead = CellRead(kind: string, text: string, isNull: int)

  datatype SetRead = SetRead(cols: seq<Col>, rows: seq<seq<CellRead>>, nbRows: int)

  datatype ParamRead = ParamRead(name: string, kind: string, text: string, isNull: bool, isOutput: bool, jType: int,
                                 sz: Option<int>)

  datatype Reading = Reading(reset: bool, sets: seq<SetRead>, params: seq<ParamRead>, msgs: seq<Msg>, status: int)

  // ----- The reader: each function gives what it has read, and what is left.

  predicate IsAt(its: seq<Item>, mark: string) { its != [] && its[0].mark == mark }

  function Expect(its: seq<Item>, mark: string): Option<seq<Item>> {
    if IsAt(its, mark) then Some(its[1..]) else None
  }

  function ExpectEnd(its: seq<Item>, name: string): Option<seq<Item>> {
    Expect(its, "/" + name)
  }

  /** <name>text</name> */
  function ReadElem(its: seq<Item>, name: string): Option<(string, seq<Item>)> {
    if IsAt(its, name) && IsAt(its[1..], "/" + name) then Some((its[0].text, its[2..])) else None
  }

  function ReadInt(its: seq<Item>, name: string): Option<(int, seq<Item>)> {
    var (text, rest) :- ReadElem(its, name);
    var n :- ParseInt(text);
    Some((n, rest))
  }

  function ReadSz(its: seq<Item>): Option<(Option<int>, seq<Item>)> {
    if !IsAt(its, "sz") then Some((None, its))
    else
      var (n, rest) :- ReadInt(its, "sz");
      Some((Some(n), rest))
  }

  /** As many things as there are, each read in the same way. */
  function ReadList<T>(its: seq<Item>, at: seq<Item> -> bool, read: seq<Item> -> Option<(T, seq<Item>)>)
    : Option<(seq<T>, seq<Item>)>
    decreases |its|
  {
    if !at(its) then Some(([], its))
    else
      var (x, r0) :- read(its);
      if |r0| >= |its| then None
      else
        var (xs, r1) :- ReadList(r0, at, read);
        Some(([x] + xs, r1))
  }

  function ReadCol(its: seq<Item>): Option<(Col, seq<Item>)> {
    var r0 :- Expect(its, "col");
    var (name, r1) :- ReadElem(r0, "name");
    var (typ, r2) :- ReadInt(r1, "int");
    var (sz, r3) :- ReadSz(r2);
    var r4 :- ExpectEnd(r3, "col");
    Some((Col(name, typ, sz), r4))
  }

  predicate AtCol(its: seq<Item>) { IsAt(its, "col") }

  const KINDS := {"str", "int", "num", "date"}

  predicate AtCell(its: seq<Item>) { its != [] && its[0].mark in KINDS }

  function ReadCell(its: seq<Item>): Option<(CellRead, seq<Item>)> {
    if its == [] then None
    else
      var (text, r0) :- ReadElem(its, its[0].mark);
      var (isNull, r1) :- ReadInt(r0, "isnull");
      Some((CellRead(its[0].mark, text, isNull), r1))
  }

  function ReadRow(its: seq<Item>): Option<(seq<CellRead>, seq<Item>)> {
    var r0 :- Expect(its, "row");
    var (cells, r1) :- ReadList(r0, AtCell, ReadCell);
    var r2 :- ExpectEnd(r1, "row");
    Some((cells, r2))
  }

  predicate AtRow(its: seq<Item>) { IsAt(its, "row") }

  function ReadColNames(its: seq<Item>): Option<(seq<Col>, seq<Item>)> {
    var r0 :- Expect(its, "colnames");
    var (cols, r1) :- ReadList(r0, AtCol, ReadCol);
    var r2 :- ExpectEnd(r1, "colnames");
    Some((cols, r2))
  }

  function ReadRows(its: seq<Item>): Option<(seq<seq<CellRead>>, seq<Item>)> {
    var r0 :- Expect(its, "rows");
    var (rows, r1) :- ReadList(r0, AtRow, ReadRow);
    var r2 :- ExpectEnd(r1, "rows");
    Some((rows, r2))
  }

  function ReadNbRows(its: seq<Item>): Option<(int, seq<Item>)> {
    var r0 :- Expect(its, "nbrows");
    var (n, r1) :- ReadInt(r0, "int");
    var r2 :- ExpectEnd(r1, "nbrows");
    Some((n, r2))
  }

  function ReadSet(its: seq<Item>): Option<(SetRead, seq<Item>)> {
    var r0 :- Expect(its, "resultset");
    var (cols, r1) :- ReadColNames(r0);
    var (rows, r2) :- ReadRows(r1);
    var (n, r3) :- ReadNbRows(r2);
    var r4 :- ExpectEnd(r3, "resultset");
    Some((SetRead(cols, rows, n), r4))
  }

  predicate AtSet(its: seq<Item>) { IsAt(its, "resultset") }

  /** xmltp_util_get_datatype_etc_from_attrib(): two indicators, and the type. */
  function ReadAttr(text: string): Option<(bool, bool, int)> {
    if |text| < 3 then None
    else
      var jType :- ParseInt(text[2..]);
      Some((text[0] == '1', text[1] == '1', jType))
  }

  function ReadParam(its: seq<Item>): Option<(ParamRead, seq<Item>)> {
    var r0 :- Expect(its, "param");
    var (name, r1) :- ReadElem(r0, "name");
    var kind := if r1 == [] then "" else r1[0].mark;
    var (text, r2) :- ReadElem(r1, kind);
    var (attr, r3) :- ReadElem(r2, "attr");
    var (isNull, isOutput, jType) :- ReadAttr(attr);
    var (sz, r4) :- ReadSz(r3);
    var r5 :- ExpectEnd(r4, "param");
    Some((ParamRead(name, kind, text, isNull, isOutput, jType, sz), r5))
  }

  predicate AtParam(its: seq<Item>) { IsAt(its, "param") }

  function ReadMsg(its: seq<Item>): Option<(Msg, seq<Item>)> {
    var r0 :- Expect(its, "msg");
    var (no, r1) :- ReadInt(r0, "int");
    var (text, r2) :- ReadElem(r1, "str");
    var r3 :- ExpectEnd(r2, "msg");
    Some((Msg(no, UnEscapeXml(text)), r3))
  }

  predicate AtMsg(its: seq<Item>) { IsAt(its, "msg") }

  /** A list in its own pair of tags, or left out. */
  function ReadWithin<T>(its: seq<Item>, name: string, at: seq<Item> -> bool,
                         read: seq<Item> -> Option<(T, seq<Item>)>): Option<(seq<T>, seq<Item>)> {
    if !IsAt(its, name) then Some(([], its))
    else
      var (xs, r) :- ReadList(its[1..], at, read);
      var rest :- ExpectEnd(r, name);
      Some((xs, rest))
  }

  function ReadTail(its: seq<Item>): Option<int> {
    var r0 :- Expect(its, "returnstatus");
    var (status, r1) :- ReadInt(r0, "int");
    var r2 :- ExpectEnd(r1, "returnstatus");
    var r3 :- ExpectEnd(r2, "response");
    var r4 :- Expect(r3, "EOT/");
    if r4 == [] then Some(status) else None
  }

  const XML_VERSION := "?xml version=\"1.0\" encoding=\"ISO-8859-1\" ?"

  function ReadItems(its: seq<Item>): Option<Reading> {
    var reset := IsAt(its, "RESET/");
    var r0 :- Expect(if reset then its[1..] else its, XML_VERSION);
    var r1 :- Expect(r0, "response");
    var (sets, r2) :- ReadWithin(r1, "resultsetslist", AtSet, ReadSet);
    var (params, r3) :- ReadWithin(r2, "outparams", AtParam, ReadParam);
    var (msgs, r4) :- ReadWithin(r3, "msglist", AtMsg, ReadMsg);
    var status :- ReadTail(r4);
    Some(Reading(reset, sets, params, msgs, status))
  }

  /** Reads the text of a whole response. */
  function ReadResponse(s: string): Option<Reading> { ReadItems(Cut(s)) }
}
