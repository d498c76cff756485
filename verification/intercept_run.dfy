/** Every run of an intercept queue: puts, batches, dumps, and the flags that open and close it. */
module InterceptRun {
  import opened Strings
  import opened InterceptQueues

  type Row = seq<string>

  /** A batch as its client gets it, and the items it was made of. */
  datatype Delivery = Delivery(colNames: seq<string>, rows: seq<Row>, items: seq<Item>)

  /** met counts the batch requests that met an item without column names. */
  datatype Sys = Sys(q: State, accepted: seq<Row>, delivered: seq<Row>, batches: seq<Delivery>, met: nat)

  datatype Event =
    | PutOne(colNames: Option<seq<string>>, row: Row)
    | GetBatch
    | DumpAll
    | AssignOpenStatus(openGet: Option<bool>, openPut: Option<bool>)
    | CloseInnerQueue

  const EMPTY := Sys(State([], true, None, true, true, 0), [], [], [], 0)

  function RowsIn(r: GetResult): seq<Row> { if r.Batch? then r.rows else [] }

  function Next(s: Sys, ev: Event, l: Limits): Sys {
    match ev
    case PutOne(colNames, row) =>
      var p := PutRow(s.q, l.queueMax, colNames, row);
      s.(q := p.1, accepted := if p.0 == 0 then s.accepted + [row] else s.accepted)
    case GetBatch =>
      var g := GetRows(s.q, l.maxRowsInGet);
      s.(q := g.1, delivered := s.delivered + RowsIn(g.0),
         batches := if g.0.Batch? && |g.0.rows| <= |Reach(s.q)|
                    then s.batches + [Delivery(g.0.colNames, g.0.rows, Reach(s.q)[..|g.0.rows|])] else s.batches,
         met := if MeetsNow(s.q, l) then s.met + 1 else s.met)
    case DumpAll =>
      s.(q := Taken(s.q, |Reach(s.q)|), delivered := s.delivered + RowsOf(Reach(s.q)))
    case AssignOpenStatus(openGet, openPut) =>
      s.(q := s.q.(openGet := if openGet.Some? then openGet.value else s.q.openGet,
                   openPut := if openPut.Some? then openPut.value else s.q.openPut))
    case CloseInnerQueue => s.(q := s.q.(queueOpen := false))
  }

  /** A batch asked for now meets an item without column names. */
  predicate MeetsNow(q: State, l: Limits) {
    q.openGet && Meets(Reach(q), l.maxRowsInGet)
  }

  function After(s: Sys, evs: seq<Event>, l: Limits): Sys
    decreases evs
  {
    if evs == [] then s else After(Next(s, evs[0], l), evs[1..], l)
  }

  // ----- One step

  lemma TakenItems(s: State, k: nat)
    requires k <= |Reach(s)|
    ensures Items(Taken(s, k)) == Items(s)[k..] && Reach(s) <= Items(s)
  {
    if !s.queueOpen { assert Reach(s) == HeldItems(s); }
  }

  lemma SplitRows(items: seq<Item>, k: nat)
    requires k <= |items|
    ensures RowsOf(items) == RowsOf(items[..k]) + RowsOf(items[k..])
  {}

  /** What a batch request does to what is pending. */
  lemma GetKeepsRows(q: State, l: Limits)
    requires Valid(q)
    ensures GetKept(q, GetRows(q, l.maxRowsInGet), l)
  {
    var items := Reach(q);
    if q.openGet && items != [] {
      if items[0].colNames == None {
        TakenItems(q, 1);
        TakenValid(q, 1);
      } else {
        BatchKeepsRows(q, BatchSize(items, l.maxRowsInGet), l);
      }
    }
  }

  ghost predicate GetKept(q: State, g: (GetResult, State), l: Limits) {
    && Valid(g.1)
    && (!MeetsNow(q, l) ==> RowsOf(Items(q)) == RowsIn(g.0) + RowsOf(Items(g.1)))
    && (MeetsNow(q, l) ==> |Items(q)| > |RowsIn(g.0)| + |Items(g.1)|)
  }

  lemma TakenValid(q: State, k: nat)
    requires Valid(q) && k <= |Reach(q)|
    ensures Valid(Taken(q, k))
  {}

  lemma BatchKeepsRows(q: State, k: nat, l: Limits)
    requires Valid(q) && q.openGet && Reach(q) != [] && Reach(q)[0].colNames.Some?
    requires k == BatchSize(Reach(q), l.maxRowsInGet)
    ensures GetKept(q, GetRows(q, l.maxRowsInGet), l)
  {
    var items := Reach(q);
    TakenItems(q, k);
    SplitRows(Items(q), k);
    assert Items(q)[..k] == items[..k];
    if !LooksFurther(items, l.maxRowsInGet) {
      TakenValid(q, k);
    } else {
      TakenItems(q, k + 1);
      TakenValid(q, k + 1);
      if items[k].colNames.Some? { PushedBack(q, k); }
    }
  }

  /** The row that is held back stays where it was. */
  lemma PushedBack(q: State, k: nat)
    requires 1 <= k < |Reach(q)|
    ensures var t := Taken(q, k + 1).(held := Some(Reach(q)[k].(putCtr := HELD)));
            RowsOf(Items(t)) == RowsOf(Items(q)[k..])
  {
    TakenItems(q, k + 1);
    assert Items(q)[k] == Reach(q)[k];
    assert Items(q)[k..] == [Items(q)[k]] + Items(q)[k + 1..];
  }

  /** A batch is made of rows of one width, as many as its limit allows at most. */
  ghost predicate GoodBatch(d: Delivery, l: Limits) {
    && d.rows == RowsOf(d.items) && 1 <= |d.rows|
    && (|d.rows| <= l.maxRowsInGet || |d.rows| == 1)
    && forall i :: 0 <= i < |d.items| ==>
                     d.items[i].colNames.Some? && |d.items[i].colNames.value| == |d.colNames|
  }

  lemma BatchHas(q: State, maxRows: int)
    ensures var r, items := GetRows(q, maxRows).0, Reach(q);
            r.Batch? ==>
              && items != [] && items[0].colNames == Some(r.colNames)
              && r.rows == RowsOf(items[..BatchSize(items, maxRows)])
  {}

  lemma GetGoodBatch(q: State, l: Limits)
    ensures var r := GetRows(q, l.maxRowsInGet).0;
            r.Batch? ==> |r.rows| <= |Reach(q)| && GoodBatch(Delivery(r.colNames, r.rows, Reach(q)[..|r.rows|]), l)
  {
    BatchHas(q, l.maxRowsInGet);
    var r, items := GetRows(q, l.maxRowsInGet).0, Reach(q);
    if r.Batch? {
      var k := BatchSize(items, l.maxRowsInGet);
      assert |r.rows| == k;
      assert forall i :: 0 <= i < k ==> items[..k][i] == items[i];
    }
  }

  /** A batch has the column names of its first row, and could not be longer: a row that was held back is alone in
      it; or it has as many rows as are allowed; or nothing more can be reached, or only a row with another number
      of columns. */
  lemma BatchIsMaximal(q: State, l: Limits)
    ensures var r, items := GetRows(q, l.maxRowsInGet).0, Reach(q);
            r.Batch? ==>
              && 1 <= |r.rows| <= |items| && items[0].colNames == Some(r.colNames)
              && (items[0].putCtr == HELD ==> |r.rows| == 1)
              && (items[0].putCtr != HELD && |r.rows| < l.maxRowsInGet && |r.rows| < |items| ==>
                    var next := items[|r.rows|];
                    next.colNames == None || |next.colNames.value| != |r.colNames|)
  {
    BatchHas(q, l.maxRowsInGet);
  }

  // ----- Runs

  ghost predicate Kept(s: Sys, l: Limits) {
    && Valid(s.q)
    && (s.met == 0 ==> s.delivered + RowsOf(Items(s.q)) == s.accepted)
    && |s.delivered| + |Items(s.q)| + s.met <= |s.accepted|
    && forall i :: 0 <= i < |s.batches| ==> GoodBatch(s.batches[i], l)
  }

  lemma Joined(a: seq<Row>, b: seq<Row>, c: seq<Row>)
    ensures a + (b + c) == (a + b) + c
  {}

  lemma GetStep(s: Sys, l: Limits)
    requires Kept(s, l)
    ensures Kept(Next(s, GetBatch, l), l)
  {
    GetKeepsRows(s.q, l);
    GetGoodBatch(s.q, l);
    var g := GetRows(s.q, l.maxRowsInGet);
    Joined(s.delivered, RowsIn(g.0), RowsOf(Items(g.1)));
    RowsKept(s, g, l);
  }

  lemma RowsKept(s: Sys, g: (GetResult, State), l: Limits)
    requires Kept(s, l) && GetKept(s.q, g, l)
    ensures !MeetsNow(s.q, l) && s.met == 0 ==> (s.delivered + RowsIn(g.0)) + RowsOf(Items(g.1)) == s.accepted
    ensures |s.delivered + RowsIn(g.0)| + |Items(g.1)| + (if MeetsNow(s.q, l) then s.met + 1 else s.met) <= |s.accepted|
  {
    Joined(s.delivered, RowsIn(g.0), RowsOf(Items(g.1)));
    assert |RowsOf(Items(s.q))| == |Items(s.q)| && |RowsOf(Items(g.1))| == |Items(g.1)|;
  }

  lemma DumpStep(s: Sys, l: Limits)
    requires Kept(s, l)
    ensures Kept(Next(s, DumpAll, l), l)
  {
    var n := |Reach(s.q)|;
    TakenItems(s.q, n);
    SplitRows(Items(s.q), n);
    assert Items(s.q)[..n] == Reach(s.q);
    assert s.delivered + (RowsOf(Reach(s.q)) + RowsOf(Items(s.q)[n..]))
        == (s.delivered + RowsOf(Reach(s.q))) + RowsOf(Items(s.q)[n..]);
  }

  lemma PutStep(s: Sys, colNames: Option<seq<string>>, row: Row, l: Limits)
    requires Kept(s, l)
    ensures Kept(Next(s, PutOne(colNames, row), l), l)
  {
    var item := Item(colNames, row, 0, s.q.puts);
    assert HeldItems(s.q) + (s.q.queue + [item]) == Items(s.q) + [item];
    assert RowsOf(Items(s.q) + [item]) == RowsOf(Items(s.q)) + [row];
    assert s.delivered + (RowsOf(Items(s.q)) + [row]) == (s.delivered + RowsOf(Items(s.q))) + [row];
  }

  lemma {:induction false} RunsKeep(s: Sys, evs: seq<Event>, l: Limits)
    requires Kept(s, l)
    ensures Kept(After(s, evs, l), l)
    decreases evs
  {
    if evs == [] {
    } else {
      match evs[0] {
        case PutOne(colNames, row) => PutStep(s, colNames, row, l);
        case GetBatch => GetStep(s, l);
        case DumpAll => DumpStep(s, l);
        case _ =>
      }
      RunsKeep(Next(s, evs[0], l), evs[1..], l);
    }
  }

  /** In every run from the empty queue: the rows delivered, then those pending, are the accepted rows in
      order, if and only if no batch request met an item without column names; and every batch is of one
      width, with one row or at most maxRowsInGet. */
  lemma LosslessFifo(evs: seq<Event>, l: Limits)
    ensures var t := After(EMPTY, evs, l);
            && (t.delivered + RowsOf(Items(t.q)) == t.accepted <==> t.met == 0)
            && (forall i :: 0 <= i < |t.batches| ==> GoodBatch(t.batches[i], l))
  {
    RunsKeep(EMPTY, evs, l);
  }

  lemma TakenNotLonger(q: State, k: nat)
    requires k <= |Reach(q)|
    ensures |Taken(q, k).queue| <= |q.queue|
  {}

  lemma BatchTakes(q: State, maxRows: int, k: nat)
    requires q.openGet && Reach(q) != [] && Reach(q)[0].colNames.Some? && k == BatchSize(Reach(q), maxRows)
    ensures GetRows(q, maxRows).1.queue
            == Taken(q, if LooksFurther(Reach(q), maxRows) then k + 1 else k).queue
  {}

  lemma NotLonger(q: State, l: Limits)
    ensures |GetRows(q, l.maxRowsInGet).1.queue| <= |q.queue|
  {
    var items := Reach(q);
    if q.openGet && items != [] && items[0].colNames.Some? {
      var k := BatchSize(items, l.maxRowsInGet);
      BatchTakes(q, l.maxRowsInGet, k);
      TakenNotLonger(q, if LooksFurther(items, l.maxRowsInGet) then k + 1 else k);
    } else if items != [] {
      TakenNotLonger(q, 1);
    }
  }

  lemma StepFits(s: Sys, ev: Event, l: Limits)
    requires l.queueMax > 0 && |s.q.queue| <= l.queueMax
    ensures |Next(s, ev, l).q.queue| <= l.queueMax
  {
    NotLonger(s.q, l);
    TakenNotLonger(s.q, |Reach(s.q)|);
  }

  /** The inner queue never has more items than its limit allows. */
  lemma {:induction false} NeverOverfull(s: Sys, evs: seq<Event>, l: Limits)
    requires l.queueMax > 0 && |s.q.queue| <= l.queueMax
    ensures |After(s, evs, l).q.queue| <= l.queueMax
    decreases evs
  {
    if evs != [] {
      StepFits(s, evs[0], l);
      NeverOverfull(Next(s, evs[0], l), evs[1..], l);
    }
  }

  ghost predicate AllNamed(q: State) {
    Valid(q) && forall i :: 0 <= i < |q.queue| ==> q.queue[i].colNames.Some?
  }

  lemma {:induction false} NamedStaysNamed(s: Sys, evs: seq<Event>, l: Limits)
    requires AllNamed(s.q) && s.met == 0
    requires forall i :: 0 <= i < |evs| ==> evs[i].PutOne? ==> evs[i].colNames.Some?
    ensures After(s, evs, l).met == 0
    decreases evs
  {
    if evs == [] {
    } else {
      match evs[0] {
        case GetBatch => NamedGet(s.q, l);
        case DumpAll => NamedTaken(s.q, |Reach(s.q)|);
        case _ =>
      }
      NamedStaysNamed(Next(s, evs[0], l), evs[1..], l);
    }
  }

  lemma NamedTaken(q: State, k: nat)
    requires AllNamed(q) && k <= |Reach(q)|
    ensures AllNamed(Taken(q, k))
  {}

  lemma NamedReach(q: State, i: nat)
    requires AllNamed(q) && i < |Reach(q)|
    ensures Reach(q)[i].colNames.Some?
  {}

  lemma NamedGet(q: State, l: Limits)
    requires AllNamed(q)
    ensures !MeetsNow(q, l) && AllNamed(GetRows(q, l.maxRowsInGet).1)
  {
    var items := Reach(q);
    if q.openGet && items != [] {
      NamedReach(q, 0);
      var k := BatchSize(items, l.maxRowsInGet);
      NamedTaken(q, k);
      if k < |items| {
        NamedReach(q, k);
        NamedTaken(q, k + 1);
      }
    }
  }

  /** Rows put with their column names are never lost, whatever the order of the calls. */
  lemma NamedRowsAreSafe(evs: seq<Event>, l: Limits)
    requires forall i :: 0 <= i < |evs| ==> evs[i].PutOne? ==> evs[i].colNames.Some?
    ensures var t := After(EMPTY, evs, l);
            t.delivered + RowsOf(Items(t.q)) == t.accepted
  {
    NamedStaysNamed(EMPTY, evs, l);
    LosslessFifo(evs, l);
  }

  /** A row put without column names behind a named one is lost by the batch that meets it, and a batch of
      no columns is lost with it. */
  lemma NamelessRowsAreLost(l: Limits, colNames: seq<string>, a: Row, b: Row)
    requires l.maxRowsInGet >= 2 && l.queueMax == 0
    ensures var t := After(EMPTY, [PutOne(Some(colNames), a), PutOne(None, b), GetBatch], l);
            && t.accepted == [a, b] && Items(t.q) == []
            && t.delivered == if colNames == [] then [] else [a]
  {
    var items := [Item(Some(colNames), a, 0, 0), Item(None, b, 0, 1)];
    var q := EMPTY.q.(queue := items, puts := 2);
    var one := Next(EMPTY, PutOne(Some(colNames), a), l);
    assert one.q.queue == [items[0]] && one.q.puts == 1;
    assert Next(one, PutOne(None, b), l) == Sys(q, [a, b], [], [], 0);
    MeetsNameless(q, colNames, a, b, l);
    ThreeSteps(EMPTY, PutOne(Some(colNames), a), PutOne(None, b), GetBatch, l);
  }

  lemma MeetsNameless(q: State, colNames: seq<string>, a: Row, b: Row, l: Limits)
    requires l.maxRowsInGet >= 2
    requires q == EMPTY.q.(puts := 2, queue := [Item(Some(colNames), a, 0, 0), Item(None, b, 0, 1)])
    ensures GetRows(q, l.maxRowsInGet) == (if colNames == [] then Failed else Batch(colNames, [a]), EMPTY.q.(puts := 2))
  {
    assert Reach(q) == q.queue;
    SizeIs(q.queue, 1, l.maxRowsInGet);
    assert RowsOf(q.queue[..1]) == [a];
    assert LooksFurther(q.queue, l.maxRowsInGet) && q.queue[1].colNames == None;
    assert q.queue[2..] == [] && Taken(q, 2) == EMPTY.q.(puts := 2);
  }

  lemma ThreeSteps(s: Sys, a: Event, b: Event, c: Event, l: Limits)
    ensures After(s, [a, b, c], l) == Next(Next(Next(s, a, l), b, l), c, l)
  {
    assert [a, b, c][1..] == [b, c] && [b, c][1..] == [c] && [c][1..] == [];
    assert After(Next(s, a, l), [b, c], l) == After(Next(Next(s, a, l), b, l), [c], l);
    assert After(Next(Next(s, a, l), b, l), [c], l) == Next(Next(Next(s, a, l), b, l), c, l);
  }
}
