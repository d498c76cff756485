/** What the reader makes of each thing that is printed. */
module RespParts {
  import opened Strings
  import opened XmlEscape
  import opened XmltpTokens
  import opened XmltpWriter
  import opened RespText
  import opened RespItems
  import opened RespParse

  // ----- Reading items

  /** A mark, an end mark, or a text in a pair of them, before the rest. */
  function Open(name: string, rest: seq<Item>): seq<Item> { [Item(name, "")] + rest }

  function Close(name: string, text: string, rest: seq<Item>): seq<Item> { [Item("/" + name, text)] + rest }

  function InPair(name: string, text: string, rest: seq<Item>): seq<Item> {
    [Item(name, text)] + Close(name, "", rest)
  }

  lemma OpenReads(name: string, rest: seq<Item>)
    ensures Expect(Open(name, rest), name) == Some(rest) && IsAt(Open(name, rest), name)
  {}

  lemma CloseReads(name: string, text: string, rest: seq<Item>)
    ensures ExpectEnd(Close(name, text, rest), name) == Some(rest)
    ensures forall mark :: mark != "" && mark[0] != '/' ==> !IsAt(Close(name, text, rest), mark)
  {
    assert ("/" + name)[0] == '/';
  }

  lemma PairReads(name: string, text: string, rest: seq<Item>)
    ensures ReadElem(InPair(name, text, rest), name) == Some((text, rest)) && IsAt(InPair(name, text, rest), name)
  {
    assert InPair(name, text, rest)[1..] == Close(name, "", rest) && InPair(name, text, rest)[2..] == rest;
  }

  lemma IntReads(name: string, n: int, rest: seq<Item>)
    ensures ReadInt(InPair(name, Dec(n), rest), name) == Some((n, rest)) && IsAt(InPair(name, Dec(n), rest), name)
  {
    PairReads(name, Dec(n), rest);
    ParseIntOfDec(n);
  }

  // ----- The items of what is printed

  lemma OneMark(t: Token)
    requires !t.Text?
    ensures Paired([t]) && Items([t]) == [Item(MarkOf(t), "")]
  {
    assert [t][1..] == [];
  }

  lemma ElemItems(tag: TagName, name: string, text: string, rest: seq<Item>)
    requires TagText(tag) == name && '<' !in text
    ensures Paired(Elem(tag, text)) && Items(Elem(tag, text)) + rest == InPair(name, text, rest)
  {
    assert Elem(tag, text)[2..] == [End(tag)];
    OneMark(End(tag));
    assert Items(Elem(tag, text)) == [Item(name, text), Item("/" + name, "")];
  }

  /** The items of two parts, from the left. */
  lemma Join2(a: seq<Token>, b: seq<Token>, rest: seq<Item>)
    requires Paired(a) && Paired(b)
    ensures Paired(a + b) && Items(a + b) + rest == Items(a) + (Items(b) + rest)
  {
    RespItems.Join(a, b);
    RespItems.Associate(Items(a), Items(b), rest);
  }

  lemma Join3(a: seq<Token>, b: seq<Token>, c: seq<Token>, rest: seq<Item>)
    requires Paired(a) && Paired(b) && Paired(c)
    ensures Paired(a + b + c) && Items(a + b + c) + rest == Items(a) + (Items(b) + (Items(c) + rest))
  {
    Join2(a, b, Items(c) + rest);
    Join2(a + b, c, rest);
  }

  lemma WrappedItems(tag: TagName, name: string, ts: seq<Token>, rest: seq<Item>)
    requires TagText(tag) == name && Paired(ts)
    ensures Paired(Wrapped(tag, ts)) && Items(Wrapped(tag, ts)) != []
    ensures Items(Wrapped(tag, ts)) + rest == Open(name, Items(ts) + Close(name, "", rest))
  {
    OneMark(Tag(tag));
    OneMark(End(tag));
    Join3([Tag(tag)], ts, [End(tag)], rest);
    Join3([Tag(tag)], ts, [End(tag)], []);
  }

  /** The parts are read one after the other. */
  ghost predicate EachReads<T(!new)>(parts: seq<seq<Token>>, vals: seq<T>, at: seq<Item> -> bool,
                               read: seq<Item> -> Option<(T, seq<Item>)>) {
    && |vals| == |parts|
    && forall i, r :: 0 <= i < |parts| ==> PartReads(parts[i], vals[i], at, read, r)
  }

  ghost predicate PartReads<T(!new)>(part: seq<Token>, val: T, at: seq<Item> -> bool,
                               read: seq<Item> -> Option<(T, seq<Item>)>, rest: seq<Item>) {
    && Paired(part) && Items(part) != [] && at(Items(part) + rest)
    && read(Items(part) + rest) == Some((val, rest))
  }

  lemma AllButLast<T(!new)>(parts: seq<seq<Token>>, vals: seq<T>, at: seq<Item> -> bool,
                            read: seq<Item> -> Option<(T, seq<Item>)>, k: nat)
    requires EachReads(parts, vals, at, read) && k + 1 == |parts|
    ensures EachReads(parts[..k], vals[..k], at, read)
  {
    forall i, r | 0 <= i < k ensures PartReads(parts[..k][i], vals[..k][i], at, read, r) {
      assert PartReads(parts[i], vals[i], at, read, r);
    }
  }

  lemma OneMore<T(!new)>(part: seq<Token>, val: T, at: seq<Item> -> bool, read: seq<Item> -> Option<(T, seq<Item>)>,
                         rest: seq<Item>, more: seq<T>, left: seq<Item>)
    requires PartReads(part, val, at, read, rest) && ReadList(rest, at, read) == Some((more, left))
    ensures Paired(part) && ReadList(Items(part) + rest, at, read) == Some(([val] + more, left))
  {}

  lemma LastPart<T(!new)>(parts: seq<seq<Token>>, vals: seq<T>, at: seq<Item> -> bool,
                          read: seq<Item> -> Option<(T, seq<Item>)>, k: nat, rest: seq<Item>, more: seq<T>,
                          left: seq<Item>)
    requires EachReads(parts, vals, at, read) && k + 1 == |parts| && ReadList(rest, at, read) == Some((more, left))
    ensures Paired(parts[k])
    ensures ReadList(Items(parts[k]) + rest, at, read) == Some(([vals[k]] + more, left))
  {
    assert PartReads(parts[k], vals[k], at, read, rest);
    OneMore(parts[k], vals[k], at, read, rest, more, left);
  }

  lemma FlatLast(parts: seq<seq<Token>>, k: nat, rest: seq<Item>)
    requires k + 1 == |parts| && Paired(Flatten(parts[..k])) && Paired(parts[k])
    ensures Paired(Flatten(parts))
    ensures Items(Flatten(parts)) + rest == Items(Flatten(parts[..k])) + (Items(parts[k]) + rest)
  {
    Join2(Flatten(parts[..k]), parts[k], rest);
  }

  lemma LastFirst<T>(vals: seq<T>, k: nat, more: seq<T>)
    requires k + 1 == |vals|
    ensures vals[..k] + ([vals[k]] + more) == vals + more
  {}

  lemma {:induction false} ListReads<T(!new)>(parts: seq<seq<Token>>, vals: seq<T>, at: seq<Item> -> bool,
                                              read: seq<Item> -> Option<(T, seq<Item>)>, rest: seq<Item>,
                                              more: seq<T>, left: seq<Item>)
    requires EachReads(parts, vals, at, read) && ReadList(rest, at, read) == Some((more, left))
    ensures Paired(Flatten(parts))
    ensures ReadList(Items(Flatten(parts)) + rest, at, read) == Some((vals + more, left))
  {
    if parts == [] {
      assert Flatten(parts) == [] && Items([]) == [] && [] + rest == rest;
      assert vals == [] && [] + more == more;
    } else {
      var k := |parts| - 1;
      LastPart(parts, vals, at, read, k, rest, more, left);
      AllButLast(parts, vals, at, read, k);
      ListReads(parts[..k], vals[..k], at, read, Items(parts[k]) + rest, [vals[k]] + more, left);
      FlatLast(parts, k, rest);
      LastFirst(vals, k, more);
    }
  }

  // Columns

  function ColIt(c: Col, rest: seq<Item>): seq<Item> {
    Open("col", InPair("name", c.name, InPair("int", Dec(c.typ), SzIt(c.sz, Close("col", "", rest)))))
  }

  function SzIt(sz: Option<int>, rest: seq<Item>): seq<Item> {
    if sz.Some? then InPair("sz", Dec(sz.value), rest) else rest
  }

  lemma SzItems(sz: Option<int>, rest: seq<Item>)
    ensures Paired(SzTokens(sz)) && Items(SzTokens(sz)) + rest == SzIt(sz, rest)
  {
    if sz.Some? {
      DecHasNoMarkup(sz.value);
      ElemItems(SZ, "sz", Dec(sz.value), rest);
    }
  }

  lemma SzReads(sz: Option<int>, rest: seq<Item>)
    requires !IsAt(rest, "sz")
    ensures ReadSz(SzIt(sz, rest)) == Some((sz, rest))
  {
    if sz.Some? { IntReads("sz", sz.value, rest); }
  }

  /** The parts of a column, whatever their tokens are. */
  lemma ColOf(t1: seq<Token>, t2: seq<Token>, t3: seq<Token>, c: Col, rest: seq<Item>)
    requires Paired(t1) && Paired(t2) && Paired(t3)
    requires var x2 := SzIt(c.sz, Close("col", "", rest));
             var x1 := InPair("int", Dec(c.typ), x2);
             && Items(t3) + Close("col", "", rest) == x2 && Items(t2) + x2 == x1
             && Items(t1) + x1 == InPair("name", c.name, x1)
    ensures Paired(Wrapped(COL, t1 + t2 + t3)) && Items(Wrapped(COL, t1 + t2 + t3)) != []
    ensures Items(Wrapped(COL, t1 + t2 + t3)) + rest == ColIt(c, rest)
  {
    Join3(t1, t2, t3, Close("col", "", rest));
    WrappedItems(COL, "col", t1 + t2 + t3, rest);
  }

  lemma Inside(a: seq<Token>, b: seq<Token>, c: seq<Token>, d: seq<Token>, e: seq<Token>)
    ensures a + b + c + d + e == a + (b + c + d) + e
  {}

  lemma ColItems(c: Col, rest: seq<Item>)
    requires '<' !in c.name
    ensures Paired(ColTokens(c)) && Items(ColTokens(c)) != [] && Items(ColTokens(c)) + rest == ColIt(c, rest)
  {
    var name, typ, sz := Elem(NAME, c.name), Elem(INT, Dec(c.typ)), SzTokens(c.sz);
    var x3 := Close("col", "", rest);
    var x2 := SzIt(c.sz, x3);
    SzItems(c.sz, x3);
    DecHasNoMarkup(c.typ);
    ElemItems(INT, "int", Dec(c.typ), x2);
    ElemItems(NAME, "name", c.name, InPair("int", Dec(c.typ), x2));
    ColOf(name, typ, sz, c, rest);
    Inside([Tag(COL)], name, typ, sz, [End(COL)]);
  }

  lemma ColItReads(c: Col, rest: seq<Item>)
    ensures AtCol(ColIt(c, rest)) && ReadCol(ColIt(c, rest)) == Some((c, rest))
  {
    var x3 := Close("col", "", rest);
    CloseReads("col", "", rest);
    SzReads(c.sz, x3);
    var x2 := SzIt(c.sz, x3);
    IntReads("int", c.typ, x2);
    var x1 := InPair("int", Dec(c.typ), x2);
    PairReads("name", c.name, x1);
    OpenReads("col", InPair("name", c.name, x1));
  }

  function ColParts(cols: seq<Col>): seq<seq<Token>> {
    seq(|cols|, i requires 0 <= i < |cols| => ColTokens(cols[i]))
  }

  lemma {:induction false} ColsAreFlat(cols: seq<Col>)
    ensures ColsTokens(cols) == Flatten(ColParts(cols))
  {
    if cols != [] {
      ColsAreFlat(cols[..|cols| - 1]);
      assert ColParts(cols)[..|cols| - 1] == ColParts(cols[..|cols| - 1]);
    }
  }

  lemma ColsRead(cols: seq<Col>, rest: seq<Item>)
    requires CleanCols(cols) && !AtCol(rest)
    ensures Paired(ColsTokens(cols))
    ensures ReadList(Items(ColsTokens(cols)) + rest, AtCol, ReadCol) == Some((cols, rest))
  {
    ColsAreFlat(cols);
    forall i, r | 0 <= i < |cols| ensures PartReads(ColParts(cols)[i], cols[i], AtCol, ReadCol, r) {
      ColItems(cols[i], r);
      ColItReads(cols[i], r);
    }
    ListReads(ColParts(cols), cols, AtCol, ReadCol, rest, [], rest);
    assert cols + [] == cols;
  }

  // Values

  /** What the reader sees of a cell. */
  function ShownCell(c: Cell, jType: int): CellRead {
    CellRead(TagText(ValueTag(jType)), CellText(c), CellNull(c))
  }

  function ShownRow(row: seq<Cell>, cols: seq<Col>): seq<CellRead>
    requires |row| <= |cols|
  {
    seq(|row|, i requires 0 <= i < |row| => ShownCell(row[i], cols[i].typ))
  }

  lemma CellIsText(c: Cell)
    requires CleanCell(c)
    ensures '<' !in CellText(c)
  {
    match c {
      case Pair(v, _) => ValueIsText(v);
      case Bare(o) => if o.Some? { ValueIsText(o.value); }
    }
  }

  function CellIt(x: CellRead, rest: seq<Item>): seq<Item> {
    InPair(x.kind, x.text, InPair("isnull", Dec(x.isNull), rest))
  }

  lemma CellItems(c: Cell, jType: int, rest: seq<Item>)
    requires CleanCell(c)
    ensures Paired(CellTokens(c, jType)) && Items(CellTokens(c, jType)) != []
    ensures Items(CellTokens(c, jType)) + rest == CellIt(ShownCell(c, jType), rest)
  {
    CellIsText(c);
    DecHasNoMarkup(CellNull(c));
    var value, isNull := Elem(ValueTag(jType), CellText(c)), Elem(ISNULL, Dec(CellNull(c)));
    ElemItems(ISNULL, "isnull", Dec(CellNull(c)), rest);
    ElemItems(ValueTag(jType), TagText(ValueTag(jType)), CellText(c), Items(isNull) + rest);
    Join2(value, isNull, rest);
    NotNothing(value + isNull, rest);
  }

  lemma NotNothing(all: seq<Token>, rest: seq<Item>)
    requires Paired(all)
    ensures |Items(all) + rest| > |rest| ==> Items(all) != []
  {}

  lemma KindOfTag(jType: int)
    ensures TagText(ValueTag(jType)) in KINDS
  {}

  lemma CellItReads(x: CellRead, rest: seq<Item>)
    requires x.kind in KINDS
    ensures AtCell(CellIt(x, rest)) && ReadCell(CellIt(x, rest)) == Some((x, rest))
  {
    IntReads("isnull", x.isNull, rest);
    PairReads(x.kind, x.text, InPair("isnull", Dec(x.isNull), rest));
  }

  function CellParts(row: seq<Cell>, cols: seq<Col>): seq<seq<Token>>
    requires |row| <= |cols|
  {
    seq(|row|, i requires 0 <= i < |row| => CellTokens(row[i], cols[i].typ))
  }

  lemma {:induction false} CellsAreFlat(row: seq<Cell>, cols: seq<Col>)
    requires |row| <= |cols|
    ensures CellsTokens(row, cols) == Flatten(CellParts(row, cols))
  {
    if row != [] {
      CellsAreFlat(row[..|row| - 1], cols);
      assert CellParts(row, cols)[..|row| - 1] == CellParts(row[..|row| - 1], cols);
    }
  }

  lemma CellsRead(row: seq<Cell>, cols: seq<Col>, rest: seq<Item>)
    requires |row| <= |cols| && CleanRow(row) && !AtCell(rest)
    ensures Paired(CellsTokens(row, cols))
    ensures ReadList(Items(CellsTokens(row, cols)) + rest, AtCell, ReadCell) == Some((ShownRow(row, cols), rest))
  {
    var parts, shown := CellParts(row, cols), ShownRow(row, cols);
    CellsAreFlat(row, cols);
    forall i, r | 0 <= i < |row| ensures PartReads(parts[i], shown[i], AtCell, ReadCell, r) {
      CellItems(row[i], cols[i].typ, r);
      KindOfTag(cols[i].typ);
      CellItReads(shown[i], r);
    }
    ListReads(parts, shown, AtCell, ReadCell, rest, [], rest);
    assert shown + [] == shown;
  }

  // Rows

  lemma RowReads(row: seq<Cell>, cols: seq<Col>, rest: seq<Item>)
    requires |row| <= |cols| && CleanRow(row)
    ensures PartReads(RowTokens(row, cols), ShownRow(row, cols), AtRow, ReadRow, rest)
  {
    var x := Close("row", "", rest);
    CloseReads("row", "", rest);
    CellsRead(row, cols, x);
    WrappedItems(ROW, "row", CellsTokens(row, cols), rest);
    OpenReads("row", Items(CellsTokens(row, cols)) + x);
  }

  function RowParts(rows: seq<seq<Cell>>, cols: seq<Col>): seq<seq<Token>>
    requires RowsFit(rows, cols)
  {
    seq(|rows|, i requires 0 <= i < |rows| => RowTokens(rows[i], cols))
  }

  function ShownRows(rows: seq<seq<Cell>>, cols: seq<Col>): seq<seq<CellRead>>
    requires RowsFit(rows, cols)
  {
    seq(|rows|, i requires 0 <= i < |rows| => ShownRow(rows[i], cols))
  }

  lemma {:induction false} RowsAreFlat(rows: seq<seq<Cell>>, cols: seq<Col>)
    requires RowsFit(rows, cols)
    ensures RowsTokens(rows, cols) == Flatten(RowParts(rows, cols))
  {
    if rows != [] {
      RowsAreFlat(rows[..|rows| - 1], cols);
      assert RowParts(rows, cols)[..|rows| - 1] == RowParts(rows[..|rows| - 1], cols);
    }
  }

  lemma RowsRead(rows: seq<seq<Cell>>, cols: seq<Col>, rest: seq<Item>)
    requires RowsFit(rows, cols) && (forall i :: 0 <= i < |rows| ==> CleanRow(rows[i])) && !AtRow(rest)
    ensures Paired(RowsTokens(rows, cols))
    ensures ReadList(Items(RowsTokens(rows, cols)) + rest, AtRow, ReadRow) == Some((ShownRows(rows, cols), rest))
  {
    var parts, shown := RowParts(rows, cols), ShownRows(rows, cols);
    RowsAreFlat(rows, cols);
    forall i, r | 0 <= i < |rows| ensures PartReads(parts[i], shown[i], AtRow, ReadRow, r) {
      RowReads(rows[i], cols, r);
    }
    ListReads(parts, shown, AtRow, ReadRow, rest, [], rest);
    assert shown + [] == shown;
  }

  // Result sets

  lemma ColNamesRead(cols: seq<Col>, rest: seq<Item>)
    requires CleanCols(cols)
    ensures Paired(Wrapped(COLNAMES, ColsTokens(cols)))
    ensures ReadColNames(Items(Wrapped(COLNAMES, ColsTokens(cols))) + rest) == Some((cols, rest))
  {
    var x := Close("colnames", "", rest);
    CloseReads("colnames", "", rest);
    ColsRead(cols, x);
    WrappedItems(COLNAMES, "colnames", ColsTokens(cols), rest);
    OpenReads("colnames", Items(ColsTokens(cols)) + x);
  }

  function NbRowsIt(n: nat, rest: seq<Item>): seq<Item> {
    Open("nbrows", InPair("int", Dec(n), Close("nbrows", "", rest)))
  }

  lemma NbRowsItReads(n: nat, rest: seq<Item>)
    ensures ReadNbRows(NbRowsIt(n, rest)) == Some((n, rest))
  {
    CloseReads("nbrows", "", rest);
    IntReads("int", n, Close("nbrows", "", rest));
    OpenReads("nbrows", InPair("int", Dec(n), Close("nbrows", "", rest)));
  }

  lemma NbRowsItems(n: nat, rest: seq<Item>)
    ensures Paired(Wrapped(NBROWS, Elem(INT, Dec(n))))
    ensures Items(Wrapped(NBROWS, Elem(INT, Dec(n)))) + rest == NbRowsIt(n, rest)
  {
    DecHasNoMarkup(n);
    ElemItems(INT, "int", Dec(n), Close("nbrows", "", rest));
    WrappedItems(NBROWS, "nbrows", Elem(INT, Dec(n)), rest);
  }

  /** The rows, with the blank that is printed after their end mark. */
  function RowsPart(r: ResultSet): seq<Token>
    requires RowsFit(r.rows, r.cols)
  {
    [Tag(ROWS)] + RowsTokens(r.rows, r.cols) + ([End(ROWS)] + [Text(" ")])
  }

  lemma RowsPartItems(r: ResultSet, rest: seq<Item>)
    requires RowsFit(r.rows, r.cols) && Paired(RowsTokens(r.rows, r.cols))
    ensures Paired(RowsPart(r))
    ensures Items(RowsPart(r)) + rest == Open("rows", Items(RowsTokens(r.rows, r.cols)) + Close("rows", " ", rest))
  {
    var end := [End(ROWS)] + [Text(" ")];
    assert end[2..] == [] && Items(end) == [Item("/" + "rows", " ")];
    OneMark(Tag(ROWS));
    Join3([Tag(ROWS)], RowsTokens(r.rows, r.cols), end, rest);
  }

  lemma RowsPartReads(r: ResultSet, rest: seq<Item>)
    requires RowsFit(r.rows, r.cols) && CleanSet(r)
    ensures Paired(RowsPart(r))
    ensures ReadRows(Items(RowsPart(r)) + rest) == Some((ShownRows(r.rows, r.cols), rest))
  {
    var x := Close("rows", " ", rest);
    CloseReads("rows", " ", rest);
    RowsRead(r.rows, r.cols, x);
    RowsPartItems(r, rest);
    OpenReads("rows", Items(RowsTokens(r.rows, r.cols)) + x);
  }

  lemma Regroup(a: seq<Token>, b: seq<Token>, c: seq<Token>, d: seq<Token>, e: seq<Token>, f: seq<Token>,
                g: seq<Token>, h: seq<Token>)
    ensures a + b + c + d + e + (f + g) + h == a + (b + (c + d + (e + f)) + g) + h
  {}

  function ShownSet(r: ResultSet): SetRead
    requires RowsFit(r.rows, r.cols)
  {
    SetRead(r.cols, ShownRows(r.rows, r.cols), |r.rows|)
  }

  lemma SetIsWrapped(r: ResultSet)
    requires RowsFit(r.rows, r.cols)
    ensures ResultSetTokens(r)
            == Wrapped(RESULTSET, Wrapped(COLNAMES, ColsTokens(r.cols)) + RowsPart(r)
                                  + Wrapped(NBROWS, Elem(INT, Dec(|r.rows|))))
  {
    Regroup([Tag(RESULTSET)], Wrapped(COLNAMES, ColsTokens(r.cols)), [Tag(ROWS)], RowsTokens(r.rows, r.cols),
            [End(ROWS)], [Text(" ")], Wrapped(NBROWS, Elem(INT, Dec(|r.rows|))), [End(RESULTSET)]);
  }

  lemma SetFrom(i1: seq<Item>, x1: seq<Item>, x2: seq<Item>, x: SetRead, rest: seq<Item>)
    requires ReadColNames(i1) == Some((x.cols, x1)) && ReadRows(x1) == Some((x.rows, x2))
    requires ReadNbRows(x2) == Some((x.nbRows, Close("resultset", "", rest)))
    ensures AtSet(Open("resultset", i1)) && ReadSet(Open("resultset", i1)) == Some((x, rest))
  {
    OpenReads("resultset", i1);
    CloseReads("resultset", "", rest);
  }

  /** The parts of a result set, whatever their tokens are. */
  lemma SetItems(t1: seq<Token>, t2: seq<Token>, t3: seq<Token>, rest: seq<Item>)
    requires Paired(t1) && Paired(t2) && Paired(t3)
    ensures Paired(Wrapped(RESULTSET, t1 + t2 + t3)) && Items(Wrapped(RESULTSET, t1 + t2 + t3)) != []
    ensures Items(Wrapped(RESULTSET, t1 + t2 + t3)) + rest
            == Open("resultset", Items(t1) + (Items(t2) + (Items(t3) + Close("resultset", "", rest))))
  {
    Join3(t1, t2, t3, Close("resultset", "", rest));
    WrappedItems(RESULTSET, "resultset", t1 + t2 + t3, rest);
  }

  lemma SetReads(r: ResultSet, rest: seq<Item>)
    requires RowsFit(r.rows, r.cols) && CleanSet(r)
    ensures PartReads(ResultSetTokens(r), ShownSet(r), AtSet, ReadSet, rest)
  {
    var cols, rows, nb := Wrapped(COLNAMES, ColsTokens(r.cols)), RowsPart(r), Wrapped(NBROWS, Elem(INT, Dec(|r.rows|)));
    var x3 := Close("resultset", "", rest);
    NbRowsItems(|r.rows|, x3);
    NbRowsItReads(|r.rows|, x3);
    var x2 := Items(nb) + x3;
    RowsPartReads(r, x2);
    var x1 := Items(rows) + x2;
    ColNamesRead(r.cols, x1);
    SetFrom(Items(cols) + x1, x1, x2, ShownSet(r), rest);
    SetItems(cols, rows, nb, rest);
    SetIsWrapped(r);
  }

  function SetParts(rs: seq<ResultSet>): seq<seq<Token>>
    requires SetsFit(rs)
  {
    seq(|rs|, i requires 0 <= i < |rs| => ResultSetTokens(rs[i]))
  }

  function ShownSets(rs: seq<ResultSet>): seq<SetRead>
    requires SetsFit(rs)
  {
    seq(|rs|, i requires 0 <= i < |rs| => ShownSet(rs[i]))
  }

  lemma {:induction false} SetsAreFlat(rs: seq<ResultSet>)
    requires SetsFit(rs)
    ensures SetsTokens(rs) == Flatten(SetParts(rs))
  {
    if rs != [] {
      SetsAreFlat(rs[..|rs| - 1]);
      assert SetParts(rs)[..|rs| - 1] == SetParts(rs[..|rs| - 1]);
    }
  }

  lemma SetsRead(rs: seq<ResultSet>, rest: seq<Item>)
    requires SetsFit(rs) && (forall i :: 0 <= i < |rs| ==> CleanSet(rs[i])) && !AtSet(rest)
    ensures Paired(SetsTokens(rs))
    ensures ReadList(Items(SetsTokens(rs)) + rest, AtSet, ReadSet) == Some((ShownSets(rs), rest))
  {
    SetsAreFlat(rs);
    forall i, x | 0 <= i < |rs| ensures PartReads(SetParts(rs)[i], ShownSets(rs)[i], AtSet, ReadSet, x) {
      SetReads(rs[i], x);
    }
    ListReads(SetParts(rs), ShownSets(rs), AtSet, ReadSet, rest, [], rest);
    assert ShownSets(rs) + [] == ShownSets(rs);
  }

  // Parameters

  function AttrText(p: Param): string {
    (if p.isNull then "1" else "0") + (if p.isOutput then "1" else "0") + Pad2(p.jType)
  }

  function ShownParam(p: Param): ParamRead {
    ParamRead(p.name, TagText(ValueTag(p.jType)), PrepValueForXml(p.val), p.isNull, p.isOutput, p.jType, p.sz)
  }

  lemma ParseIntOfPad2(n: int)
    ensures ParseInt(Pad2(n)) == Some(n) && |Pad2(n)| > 0
  {
    if 0 <= n < 10 {
      DigitsRoundTrip(n);
      var t := "0" + Dec(n);
      assert |Dec(n)| == 1 && t[..1] == "0";
      assert DigitsValue("0") == Some(0) && DigitsValue(t) == Some(n);
      StripNothing(t);
    } else {
      ParseIntOfDec(n);
    }
  }

  lemma AttrReads(p: Param)
    ensures ReadAttr(AttrText(p)) == Some((p.isNull, p.isOutput, p.jType))
  {
    var t := AttrText(p);
    ParseIntOfPad2(p.jType);
    assert t[2..] == Pad2(p.jType);
    assert t[0] == (if p.isNull then '1' else '0') && t[1] == (if p.isOutput then '1' else '0');
  }

  lemma AttrIsText(p: Param)
    ensures '<' !in AttrText(p)
  {
    DecHasNoMarkup(p.jType);
  }

  function ParamIt(p: Param, rest: seq<Item>): seq<Item> {
    Open("param", InPair("name", p.name, InPair(TagText(ValueTag(p.jType)), PrepValueForXml(p.val),
         InPair("attr", AttrText(p), SzIt(p.sz, Close("param", "", rest))))))
  }

  lemma ParamItReads(p: Param, rest: seq<Item>)
    ensures AtParam(ParamIt(p, rest)) && ReadParam(ParamIt(p, rest)) == Some((ShownParam(p), rest))
  {
    var kind, text, x4 := TagText(ValueTag(p.jType)), PrepValueForXml(p.val), Close("param", "", rest);
    CloseReads("param", "", rest);
    SzReads(p.sz, x4);
    var x3 := SzIt(p.sz, x4);
    PairReads("attr", AttrText(p), x3);
    AttrReads(p);
    var x2 := InPair("attr", AttrText(p), x3);
    PairReads(kind, text, x2);
    var x1 := InPair(kind, text, x2);
    PairReads("name", p.name, x1);
    OpenReads("param", InPair("name", p.name, x1));
  }

  /** The parts of a parameter, whatever their tokens are. */
  lemma ParamOf(t1: seq<Token>, t2: seq<Token>, t3: seq<Token>, t4: seq<Token>, rest: seq<Item>)
    requires Paired(t1) && Paired(t2) && Paired(t3) && Paired(t4)
    ensures Paired(Wrapped(PARAM, t1 + t2 + t3 + t4)) && Items(Wrapped(PARAM, t1 + t2 + t3 + t4)) != []
    ensures Items(Wrapped(PARAM, t1 + t2 + t3 + t4)) + rest
            == Open("param", Items(t1) + (Items(t2) + (Items(t3) + (Items(t4) + Close("param", "", rest)))))
  {
    Join3(t1, t2, t3, Items(t4) + Close("param", "", rest));
    Join2(t1 + t2 + t3, t4, Close("param", "", rest));
    WrappedItems(PARAM, "param", t1 + t2 + t3 + t4, rest);
  }

  lemma InsideParam(a: seq<Token>, b: seq<Token>, c: seq<Token>, d: seq<Token>, e: seq<Token>, f: seq<Token>,
                    g: seq<Token>, h: seq<Token>)
    ensures a + b + c + d + e + f + g + h == a + (b + c + d + e + f + g) + h
  {}

  lemma ParamIsWrapped(p: Param)
    ensures ParamTokens(p)
            == Wrapped(PARAM, Elem(NAME, p.name) + Elem(ValueTag(p.jType), PrepValueForXml(p.val))
                              + Elem(ATTR, AttrText(p)) + SzTokens(p.sz))
  {
    assert Elem(NAME, p.name) == [Tag(NAME)] + [Text(p.name)] + [End(NAME)];
    InsideParam([Tag(PARAM)], [Tag(NAME)], [Text(p.name)], [End(NAME)],
                Elem(ValueTag(p.jType), PrepValueForXml(p.val)), Elem(ATTR, AttrText(p)), SzTokens(p.sz), [End(PARAM)]);
  }

  lemma ParamItems(p: Param, rest: seq<Item>)
    requires CleanParam(p)
    ensures Paired(ParamTokens(p)) && Items(ParamTokens(p)) != [] && Items(ParamTokens(p)) + rest == ParamIt(p, rest)
  {
    var kind, text, x4 := TagText(ValueTag(p.jType)), PrepValueForXml(p.val), Close("param", "", rest);
    ValueIsText(p.val);
    AttrIsText(p);
    SzItems(p.sz, x4);
    var x3 := SzIt(p.sz, x4);
    ElemItems(ATTR, "attr", AttrText(p), x3);
    var x2 := InPair("attr", AttrText(p), x3);
    ElemItems(ValueTag(p.jType), kind, text, x2);
    ElemItems(NAME, "name", p.name, InPair(kind, text, x2));
    ParamOf(Elem(NAME, p.name), Elem(ValueTag(p.jType), text), Elem(ATTR, AttrText(p)), SzTokens(p.sz), rest);
    ParamIsWrapped(p);
  }

  function ParamParts(ps: seq<Param>): seq<seq<Token>> {
    seq(|ps|, i requires 0 <= i < |ps| => ParamTokens(ps[i]))
  }

  function ShownParams(ps: seq<Param>): seq<ParamRead> {
    seq(|ps|, i requires 0 <= i < |ps| => ShownParam(ps[i]))
  }

  lemma {:induction false} ParamsAreFlat(ps: seq<Param>)
    ensures ParamsTokens(ps) == Flatten(ParamParts(ps))
  {
    if ps != [] {
      ParamsAreFlat(ps[..|ps| - 1]);
      assert ParamParts(ps)[..|ps| - 1] == ParamParts(ps[..|ps| - 1]);
    }
  }

  lemma ParamsRead(ps: seq<Param>, rest: seq<Item>)
    requires (forall i :: 0 <= i < |ps| ==> CleanParam(ps[i])) && !AtParam(rest)
    ensures Paired(ParamsTokens(ps))
    ensures ReadList(Items(ParamsTokens(ps)) + rest, AtParam, ReadParam) == Some((ShownParams(ps), rest))
  {
    ParamsAreFlat(ps);
    forall i, x | 0 <= i < |ps| ensures PartReads(ParamParts(ps)[i], ShownParams(ps)[i], AtParam, ReadParam, x) {
      ParamItems(ps[i], x);
      ParamItReads(ps[i], x);
    }
    ListReads(ParamParts(ps), ShownParams(ps), AtParam, ReadParam, rest, [], rest);
    assert ShownParams(ps) + [] == ShownParams(ps);
  }

  // Messages

  function MsgIt(m: Msg, rest: seq<Item>): seq<Item> {
    Open("msg", InPair("int", Dec(m.no), InPair("str", EscapeForXml(m.text), Close("msg", "", rest))))
  }

  lemma MsgItReads(m: Msg, rest: seq<Item>)
    ensures AtMsg(MsgIt(m, rest)) && ReadMsg(MsgIt(m, rest)) == Some((m, rest))
  {
    var x2 := Close("msg", "", rest);
    CloseReads("msg", "", rest);
    PairReads("str", EscapeForXml(m.text), x2);
    var x1 := InPair("str", EscapeForXml(m.text), x2);
    IntReads("int", m.no, x1);
    OpenReads("msg", InPair("int", Dec(m.no), x1));
    EscapeRoundTrip(m.text);
  }

  lemma MsgOf(t1: seq<Token>, t2: seq<Token>, rest: seq<Item>)
    requires Paired(t1) && Paired(t2)
    ensures Paired(Wrapped(MSG, t1 + t2)) && Items(Wrapped(MSG, t1 + t2)) != []
    ensures Items(Wrapped(MSG, t1 + t2)) + rest == Open("msg", Items(t1) + (Items(t2) + Close("msg", "", rest)))
  {
    Join2(t1, t2, Close("msg", "", rest));
    WrappedItems(MSG, "msg", t1 + t2, rest);
  }

  lemma MsgItems(m: Msg, rest: seq<Item>)
    ensures Paired(MsgTokens(m)) && Items(MsgTokens(m)) != [] && Items(MsgTokens(m)) + rest == MsgIt(m, rest)
  {
    var no, text, x2 := Elem(INT, Dec(m.no)), Elem(STR, EscapeForXml(m.text)), Close("msg", "", rest);
    EscapeIsOnePass(m.text);
    EscapeSetClean(m.text);
    DecHasNoMarkup(m.no);
    ElemItems(STR, "str", EscapeForXml(m.text), x2);
    ElemItems(INT, "int", Dec(m.no), InPair("str", EscapeForXml(m.text), x2));
    MsgOf(no, text, rest);
    InsideMsg([Tag(MSG)], no, text, [End(MSG)]);
  }

  lemma InsideMsg(a: seq<Token>, b: seq<Token>, c: seq<Token>, d: seq<Token>)
    ensures a + b + c + d == a + (b + c) + d
  {}

  function MsgParts(ms: seq<Msg>): seq<seq<Token>> {
    seq(|ms|, i requires 0 <= i < |ms| => MsgTokens(ms[i]))
  }

  lemma {:induction false} MsgsAreFlat(ms: seq<Msg>)
    ensures MsgsTokens(ms) == Flatten(MsgParts(ms))
  {
    if ms != [] {
      MsgsAreFlat(ms[..|ms| - 1]);
      assert MsgParts(ms)[..|ms| - 1] == MsgParts(ms[..|ms| - 1]);
    }
  }

  lemma MsgsRead(ms: seq<Msg>, rest: seq<Item>)
    requires !AtMsg(rest)
    ensures Paired(MsgsTokens(ms))
    ensures ReadList(Items(MsgsTokens(ms)) + rest, AtMsg, ReadMsg) == Some((ms, rest))
  {
    MsgsAreFlat(ms);
    forall i, x | 0 <= i < |ms| ensures PartReads(MsgParts(ms)[i], ms[i], AtMsg, ReadMsg, x) {
      MsgItems(ms[i], x);
      MsgItReads(ms[i], x);
    }
    ListReads(MsgParts(ms), ms, AtMsg, ReadMsg, rest, [], rest);
    assert ms + [] == ms;
  }
}
