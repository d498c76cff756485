/** The tags of XML-TP and the text of a sequence of them. */
module XmltpTokens {
  import opened Strings
  import opened Markup

  datatype TagName =
    | XMLVERSION | EOT | RESET | ATTR | COL | COLNAMES | DATE | INT | ISNULL | MSG | MSGLIST | NAME | NUM
    | OUTPARAMS | PARAM | RESPONSE | RESULTSET | RESULTSETSLIST | RETURNSTATUS | ROW | ROWS | STR | SZ | NBROWS

  function TagText(t: TagName): string {
    match t
    case XMLVERSION => "?xml version=\"1.0\" encoding=\"ISO-8859-1\" ?"
    case EOT => "EOT/"
    case RESET => "RESET/"
    case ATTR => "attr"
    case COL => "col"
    case COLNAMES => "colnames"
    case DATE => "date"
    case INT => "int"
    case ISNULL => "isnull"
    case MSG => "msg"
    case MSGLIST => "msglist"
    case NAME => "name"
    case NUM => "num"
    case OUTPARAMS => "outparams"
    case PARAM => "param"
    case RESPONSE => "response"
    case RESULTSET => "resultset"
    case RESULTSETSLIST => "resultsetslist"
    case RETURNSTATUS => "returnstatus"
    case ROW => "row"
    case ROWS => "rows"
    case STR => "str"
    case SZ => "sz"
    case NBROWS => "nbrows"
  }

  /** A tag <t>, its end </t>, or a stretch of text. */
  datatype Token = Tag(tag: TagName) | End(tag: TagName) | Text(s: string)

  function PieceOf(t: Token): Piece {
    match t
    case Tag(n) => Mark(TagText(n))
    case End(n) => Mark("/" + TagText(n))
    case Text(s) => Plain(s)
  }

  function Map<A, B>(f: A -> B, s: seq<A>): seq<B> {
    seq(|s|, i requires 0 <= i < |s| => f(s[i]))
  }

  lemma MapConcat<A, B>(f: A -> B, a: seq<A>, b: seq<A>)
    ensures Map(f, a + b) == Map(f, a) + Map(f, b)
  {}

  /** The text of tokens. */
  function Print(ts: seq<Token>): string { Render(Map(PieceOf, ts)) }

  lemma PrintConcat(a: seq<Token>, b: seq<Token>)
    ensures Print(a + b) == Print(a) + Print(b)
  {
    MapConcat(PieceOf, a, b);
    RenderConcat(Map(PieceOf, a), Map(PieceOf, b));
  }

  lemma PrintOne(t: Token)
    ensures Print([t]) == RenderOne(PieceOf(t))
  {
    assert Map(PieceOf, [t]) == [PieceOf(t)];
    assert Render([PieceOf(t)][1..]) == "";
  }

  /** Text without '<', and no end mark and no return status tag. */
  predicate BodyToken(t: Token) {
    && (t.Text? ==> '<' !in t.s)
    && t != Tag(EOT) && t != Tag(RETURNSTATUS)
  }

  predicate Body(ts: seq<Token>) {
    forall i :: 0 <= i < |ts| ==> BodyToken(ts[i])
  }

  lemma CleanWithSlash(n: string)
    ensures CleanName(n) ==> CleanName("/" + n)
  {}

  lemma XmlVersionIsClean()
    ensures CleanName("?xml version=\"1.0\" encoding=\"ISO-8859-1\" ?")
  {}

  lemma TagTextsClean(t: TagName)
    ensures CleanName(TagText(t)) && CleanName("/" + TagText(t))
  {
    CleanWithSlash(TagText(t));
    match t
    case XMLVERSION => XmlVersionIsClean();
    case RESULTSETSLIST => assert CleanName("resultsetslist");
    case RETURNSTATUS => assert CleanName("returnstatus");
    case RESULTSET => assert CleanName("resultset");
    case OUTPARAMS => assert CleanName("outparams");
    case COLNAMES => assert CleanName("colnames");
    case RESPONSE => assert CleanName("response");
    case _ =>
  }

  lemma TagTextsDiffer(t: TagName, x: TagName)
    requires x.EOT? || x.RETURNSTATUS?
    ensures t != x ==> TagText(t) != TagText(x)
    ensures "/" + TagText(t) != TagText(x)
  {
    if x.EOT? {
      assert TagText(x)[0] == 'E';
    } else {
      assert |TagText(x)| == 12;
    }
  }

  lemma BodyIsFree(ts: seq<Token>, x: TagName)
    requires Body(ts) && (x.EOT? || x.RETURNSTATUS?)
    ensures Free(Map(PieceOf, ts), TagText(x))
  {
    forall i | 0 <= i < |ts|
      ensures WellFormed(PieceOf(ts[i])) && PieceOf(ts[i]) != Mark(TagText(x))
    {
      if !ts[i].Text? {
        TagTextsClean(ts[i].tag);
        TagTextsDiffer(ts[i].tag, x);
      }
    }
  }

  const EOT_TAG := "<EOT/>"
  const RETURNSTATUS_TAG := "<returnstatus>"
  const INT_TAG := "<int>"
  const INT_END := "</int>"

  /** Printed body text delays the search for the end mark ... */
  lemma FindEotPastBody(ts: seq<Token>, rest: string)
    requires Body(ts)
    ensures Find(Print(ts) + rest, EOT_TAG) ==
            if Find(rest, EOT_TAG) < 0 then -1 else |Print(ts)| + Find(rest, EOT_TAG)
  {
    BodyIsFree(ts, EOT);
    assert EOT_TAG == Bracket("EOT/");
    FindPastPieces(Map(PieceOf, ts), rest, "EOT/");
  }

  /** ... and for the return status tag. */
  lemma FindStatusPastBody(ts: seq<Token>, rest: string)
    requires Body(ts)
    ensures Find(Print(ts) + rest, RETURNSTATUS_TAG) ==
            if Find(rest, RETURNSTATUS_TAG) < 0 then -1 else |Print(ts)| + Find(rest, RETURNSTATUS_TAG)
  {
    BodyIsFree(ts, RETURNSTATUS);
    assert RETURNSTATUS_TAG == Bracket("returnstatus");
    FindPastPieces(Map(PieceOf, ts), rest, "returnstatus");
  }
}
