/** The intercept queue: rows wait until a client asks for a batch of them. A row whose number of
    columns differs from that of the batch is held back for the next one. */
module InterceptQueues {
  import opened Strings

  const HELD := -1

  /** An item without column names comes from an active queue. no is the number of its put, by which one
      item is told from another. */
  datatype Item = Item(colNames: Option<seq<string>>, row: seq<string>, putCtr: int, no: nat)

  /** What an item carries for its receiver. */
  datatype Entry = Entry(colNames: Option<seq<string>>, row: seq<string>)

  datatype GetResult = Closed | Empty | Failed | Batch(colNames: seq<string>, rows: seq<seq<string>>)

  /** The queue as a value: the inner queue and whether it is open, the held row, the two flags that the
      operator's commands change, and the number of puts. */
  datatype State = State(queue: seq<Item>, queueOpen: bool, held: Option<Item>, openGet: bool, openPut: bool, puts: nat)

  /** The room in the queue, without limit when it is 0, and the rows of a batch at most. */
  datatype Limits = Limits(queueMax: nat, maxRowsInGet: int)

  function EntryOf(item: Item): Entry { Entry(item.colNames, item.row) }

  function Entries(items: seq<Item>): seq<Entry> {
    seq(|items|, i requires 0 <= i < |items| => EntryOf(items[i]))
  }

  function RowsOf(items: seq<Item>): seq<seq<string>> {
    seq(|items|, i requires 0 <= i < |items| => items[i].row)
  }

  function HeldItems(s: State): seq<Item> { if s.held.Some? then [s.held.value] else [] }

  /** Everything still to be delivered, in order. */
  function Items(s: State): seq<Item> { HeldItems(s) + s.queue }

  /** What queueGetNowait() can reach: an inner queue that is closed gives nothing. */
  function Reach(s: State): seq<Item> { HeldItems(s) + if s.queueOpen then s.queue else [] }

  predicate Valid(s: State) {
    && (s.held.Some? ==> s.held.value.putCtr == HELD && s.held.value.colNames.Some?)
    && forall i :: 0 <= i < |s.queue| ==> s.queue[i].putCtr != HELD
  }

  /** The state when the first k items were taken. */
  function Taken(s: State, k: nat): State
    requires k <= |Reach(s)|
  {
    if k == 0 then s
    else s.(held := None, queue := if s.queueOpen then s.queue[k - |HeldItems(s)|..] else s.queue)
  }

  // ----- What a batch is

  predicate HasWidth(item: Item, width: nat) {
    item.colNames.Some? && |item.colNames.value| == width
  }

  /** How many items at the head have the names of width columns. */
  function SameRun(items: seq<Item>, width: nat): (k: nat)
    ensures k <= |items| && (forall i :: 0 <= i < k ==> HasWidth(items[i], width))
    ensures k < |items| ==> !HasWidth(items[k], width)
  {
    if items == [] || !HasWidth(items[0], width) then 0 else 1 + SameRun(items[1..], width)
  }

  /** A held row is alone in its batch, and there is always room for one. */
  function Room(first: Item, maxRows: int): nat {
    if first.putCtr == HELD || maxRows <= 1 then 1 else maxRows
  }

  /** The items at the head that make a batch: those of the width of the first, as far as there is room. */
  function BatchSize(items: seq<Item>, maxRows: int): (k: nat)
    requires items != [] && items[0].colNames.Some?
    ensures 1 <= k <= |items| && k <= Room(items[0], maxRows)
    ensures forall i :: 0 <= i < k ==> HasWidth(items[i], |items[0].colNames.value|)
    ensures k < |items| && k < Room(items[0], maxRows) ==> !HasWidth(items[k], |items[0].colNames.value|)
  {
    var n, room := SameRun(items, |items[0].colNames.value|), Room(items[0], maxRows);
    if n < room then n else room
  }

  /** The batch looks at an item that it does not take. */
  predicate LooksFurther(items: seq<Item>, maxRows: int)
    requires items != [] && items[0].colNames.Some?
  {
    BatchSize(items, maxRows) < |items| && BatchSize(items, maxRows) < Room(items[0], maxRows)
  }

  /** An item without column names is met, and lost by the exception. */
  predicate Meets(items: seq<Item>, maxRows: int) {
    items != [] && (items[0].colNames == None
                    || (LooksFurther(items, maxRows) && items[BatchSize(items, maxRows)].colNames == None))
  }

  /** The batch, or why there is none, and the state after it. */
  function GetRows(s: State, maxRows: int): (GetResult, State) {
    var items := Reach(s);
    if !s.openGet then (Closed, s)
    else if items == [] then (Empty, s)
    else if items[0].colNames == None then (Failed, Taken(s, 1))
    else
      var k, colNames := BatchSize(items, maxRows), items[0].colNames.value;
      var batch := Batch(colNames, RowsOf(items[..k]));
      if !LooksFurther(items, maxRows) then (batch, Taken(s, k))
      else if items[k].colNames == None then (if colNames == [] then Failed else batch, Taken(s, k + 1))
      else (batch, Taken(s, k + 1).(held := Some(items[k].(putCtr := HELD))))
  }

  function PutRow(s: State, queueMax: nat, colNames: Option<seq<string>>, row: seq<string>): (int, State) {
    if !s.queueOpen then (-1, s)
    else if queueMax > 0 && |s.queue| >= queueMax then (-2, s)
    else (0, s.(queue := s.queue + [Item(colNames, row, 0, s.puts)], puts := s.puts + 1))
  }

  /** What is refused, and what a request is told: the inner queue refuses a row when it is closed or full, and
      the request gets nothing when the queue is closed for it, when nothing can be reached, or when the first
      item has no column names, or the names of no column and one without names follows. */
  lemma Answers(s: State, l: Limits, colNames: Option<seq<string>>, row: seq<string>)
    ensures PutRow(s, l.queueMax, colNames, row).0 == 0 <==> s.queueOpen && (l.queueMax == 0 || |s.queue| < l.queueMax)
    ensures PutRow(s, l.queueMax, colNames, row).0 == -1 <==> !s.queueOpen
    ensures GetRows(s, l.maxRowsInGet).0 == Closed <==> !s.openGet
    ensures GetRows(s, l.maxRowsInGet).0 == Empty
            <==> s.openGet && s.held == None && (!s.queueOpen || s.queue == [])
    ensures s.openGet && Reach(s) != [] && Reach(s)[0].colNames == None ==> GetRows(s, l.maxRowsInGet).0 == Failed
    ensures s.openGet && Reach(s) != [] && Reach(s)[0].colNames.Some? && Reach(s)[0].colNames.value != [] ==>
              GetRows(s, l.maxRowsInGet).0.Batch?
  {}

  // ----- The queue object

  /** What the batch loop sees after a row. */
  datatype Look = Nothing | Nameless | Other(item: Item) | Same(item: Item)

  function Seen(rest: seq<Item>, width: nat): Look {
    if rest == [] then Nothing
    else if rest[0].colNames == None then Nameless
    else if |rest[0].colNames.value| != width then Other(rest[0])
    else Same(rest[0])
  }

  /** A batch has one size. */
  lemma SizeIs(items: seq<Item>, k: nat, maxRows: int)
    requires 1 <= k <= |items| && items[0].colNames.Some? && k <= Room(items[0], maxRows)
    requires forall i :: 0 <= i < k ==> HasWidth(items[i], |items[0].colNames.value|)
    requires k < |items| && k < Room(items[0], maxRows) ==> !HasWidth(items[k], |items[0].colNames.value|)
    ensures BatchSize(items, maxRows) == k
  {}

  /** The loop has taken the rows of the first |rows| items of s. */
  ghost predicate Filled(s: State, rows: seq<seq<string>>, v: State, width: nat) {
    var items, k := Reach(s), |rows|;
    && s.openGet && k <= |items| && rows == RowsOf(items[..k]) && v == Taken(s, k)
    && (forall i :: 0 <= i < k ==> HasWidth(items[i], width))
    && (forall i :: 0 < i < |items| ==> items[i].putCtr != HELD)
  }

  /** And it is about to take the row of qItem. */
  ghost predicate Filling(s: State, rows: seq<seq<string>>, qItem: Item, v: State, width: nat, maxRows: int) {
    var items, k := Reach(s), |rows|;
    && s.openGet && k < |items| && rows == RowsOf(items[..k]) && qItem == items[k]
    && v == Taken(s, k + 1) && Reach(v) == items[k + 1..]
    && (forall i :: 0 <= i <= k ==> HasWidth(items[i], width))
    && (forall i :: 0 < i < |items| ==> items[i].putCtr != HELD)
    && (k > 0 ==> k < maxRows && items[0].putCtr != HELD)
  }

  /** Before the first row. */
  lemma FirstFilling(s: State, colNames: seq<string>, maxRows: int)
    requires Valid(s) && Reach(s) != [] && Reach(s)[0].colNames == Some(colNames) && s.openGet
    ensures Filling(s, [], Reach(s)[0], Taken(s, 1), |colNames|, maxRows) && Taken(s, 1).held == None
  {
    TakenFirst(s);
    OnlyFirstHeld(s);
    assert RowsOf(Reach(s)[..0]) == [];
  }

  lemma TakenFirst(s: State)
    requires Reach(s) != []
    ensures Reach(Taken(s, 1)) == Reach(s)[1..] && Taken(s, 1).held == None
  {
    if s.held == None { assert Reach(s) == s.queue; } else { assert Reach(Taken(s, 1)) == Reach(s)[1..]; }
  }

  lemma OnlyFirstHeld(s: State)
    requires Valid(s)
    ensures forall i :: 0 < i < |Reach(s)| ==> Reach(s)[i].putCtr != HELD
  {
    forall i | 0 < i < |Reach(s)| ensures Reach(s)[i].putCtr != HELD {
      assert Reach(s)[i] == s.queue[i - |HeldItems(s)|];
    }
  }

  lemma RowTaken(s: State, rows: seq<seq<string>>, qItem: Item, v: State, colNames: seq<string>, maxRows: int)
    requires Filling(s, rows, qItem, v, |colNames|, maxRows) && Reach(s)[0].colNames == Some(colNames)
    ensures Filled(s, rows + [qItem.row], v, |colNames|) && Reach(v) == Reach(s)[|rows| + 1..]
    ensures |rows| + 1 >= maxRows || qItem.putCtr == HELD ==>
              GetRows(s, maxRows) == (Batch(colNames, rows + [qItem.row]), v)
    ensures |rows| > 0 ==> Reach(s)[0].putCtr != HELD
    ensures qItem.putCtr != HELD ==> Reach(s)[0].putCtr != HELD
  {
    var items, k := Reach(s), |rows|;
    assert items[..k + 1] == items[..k] + [items[k]];
    if k + 1 >= maxRows || qItem.putCtr == HELD { SizeIs(items, k + 1, maxRows); }
  }

  /** The state after the look l at the next item, from v. */
  function AfterLook(v: State, l: Look): State
    requires l.Nothing? || Reach(v) != []
  {
    match l
    case Nothing => v
    case Nameless => Taken(v, 1)
    case Same(_) => Taken(v, 1)
    case Other(item) => Taken(v, 1).(held := Some(item.(putCtr := HELD)))
  }

  lemma LoopGoesOn(s: State, rows: seq<seq<string>>, v: State, width: nat, maxRows: int, w: State)
    requires Filled(s, rows, v, width) && 1 <= |rows| < maxRows && Reach(s)[0].putCtr != HELD
    requires Seen(Reach(v), width).Same? && w == Taken(v, 1) && Reach(w) == Reach(v)[1..]
    requires Reach(v) == Reach(s)[|rows|..]
    ensures Filling(s, rows, Reach(v)[0], w, width, maxRows)
  {
    TakenStep(s, |rows|);
  }

  lemma LoopEnds(s: State, rows: seq<seq<string>>, v: State, colNames: seq<string>, maxRows: int)
    requires Filled(s, rows, v, |colNames|) && 1 <= |rows| < maxRows && Reach(s)[0].putCtr != HELD
    requires Reach(v) == Reach(s)[|rows|..] && Reach(s)[0].colNames == Some(colNames)
    requires !Seen(Reach(v), |colNames|).Same?
    ensures var l := Seen(Reach(v), |colNames|);
            GetRows(s, maxRows) == (if l.Nameless? && colNames == [] then Failed else Batch(colNames, rows),
                                    AfterLook(v, l))
  {
    var items, k := Reach(s), |rows|;
    assert Reach(v) != [] ==> Reach(v)[0] == items[k];
    SizeIs(items, k, maxRows);
    if k < |items| { TakenStep(s, k); }
  }

  /** One turn of the loop: it returns, or looks at the next item and returns or goes on. */
  lemma Turn(s: State, rows: seq<seq<string>>, qItem: Item, v: State, colNames: seq<string>, maxRows: int)
    requires Filling(s, rows, qItem, v, |colNames|, maxRows) && Reach(s)[0].colNames == Some(colNames)
    requires v.held == None
    ensures var all, l := rows + [qItem.row], Seen(Reach(v), |colNames|);
            if |all| >= maxRows || qItem.putCtr == HELD then GetRows(s, maxRows) == (Batch(colNames, all), v)
            else if !l.Same? then
              GetRows(s, maxRows) == (if l.Nameless? && colNames == [] then Failed else Batch(colNames, all),
                                      AfterLook(v, l))
            else Filling(s, all, l.item, Taken(v, 1), |colNames|, maxRows) && |Reach(Taken(v, 1))| < |Reach(v)|
  {
    var all := rows + [qItem.row];
    RowTaken(s, rows, qItem, v, colNames, maxRows);
    if |all| < maxRows && qItem.putCtr != HELD {
      if !Seen(Reach(v), |colNames|).Same? {
        LoopEnds(s, all, v, colNames, maxRows);
      } else {
        TakenHead(v);
        LoopGoesOn(s, all, v, |colNames|, maxRows, Taken(v, 1));
      }
    }
  }

  lemma TakenHead(v: State)
    requires v.held == None && Reach(v) != []
    ensures Reach(Taken(v, 1)) == Reach(v)[1..] && |Reach(Taken(v, 1))| < |Reach(v)|
  {}

  lemma TakenStep(s: State, k: nat)
    requires 1 <= k < |Reach(s)|
    ensures Taken(Taken(s, k), 1) == Taken(s, k + 1)
  {}

  class InterceptQueue {
    const queueMax: nat
    const maxRowsInGet: int
    var queue: seq<Item>
    var queueOpen: bool
    var heldQitem: Option<Item>
    var b_openGet: bool
    var b_openPut: bool
    var ctrTotalPut: nat

    function Value(): State reads this { State(queue, queueOpen, heldQitem, b_openGet, b_openPut, ctrTotalPut) }

    constructor (queueMax: nat, maxRowsInGet: int)
      ensures Value() == State([], true, None, true, true, 0)
      ensures this.queueMax == queueMax && this.maxRowsInGet == maxRowsInGet
    {
      this.queueMax, this.maxRowsInGet := queueMax, maxRowsInGet;
      queue, queueOpen, heldQitem, b_openGet, b_openPut, ctrTotalPut := [], true, None, true, true, 0;
    }

    method GetQueueQsize() returns (n: nat)
      ensures n == |Items(Value())|
    {
      n := |queue| + if heldQitem.Some? then 1 else 0;
    }

    /** Whether an RPC whose rows are to be queued may be accepted: exactly when both are open and there is room
        for two, the held row being counted too. Then a row put now is accepted, and so is another one after it.
        A queue without limit is never ready. */
    method IsReady() returns (ready: bool)
      ensures ready <==> b_openPut && queueOpen && |Items(Value())| + 2 <= queueMax
      ensures ready ==> forall colNames, row, row' ::
                          var p := PutRow(Value(), queueMax, colNames, row);
                          p.0 == 0 && PutRow(p.1, queueMax, colNames, row').0 == 0
    {
      if !b_openPut { return false; }
      if !queueOpen { return false; }
      var n := GetQueueQsize();
      ready := n + 1 < queueMax;
      assert |queue| <= n;
      forall colNames, row
        ensures var p := PutRow(Value(), queueMax, colNames, row);
                ready ==> p.0 == 0 && p.1.queueOpen && |p.1.queue| == |queue| + 1 {}
    }

    /** The flag b_openPut is not looked at: only the inner queue refuses. */
    method QueueOneRow(colNames: Option<seq<string>>, row: seq<string>) returns (rc: int)
      modifies this`queue, this`ctrTotalPut
      ensures (rc, Value()) == PutRow(old(Value()), queueMax, colNames, row)
    {
      if !queueOpen { return -1; }
      if queueMax > 0 && |queue| >= queueMax { return -2; }
      queue := queue + [Item(colNames, row, 0, ctrTotalPut)];
      ctrTotalPut := ctrTotalPut + 1;
      rc := 0;
    }

    /** The held item first. */
    method QueueGetNowait() returns (item: Option<Item>)
      modifies this`queue, this`heldQitem
      ensures item == if Reach(old(Value())) == [] then None else Some(Reach(old(Value()))[0])
      ensures Value() == Taken(old(Value()), if item == None then 0 else 1)
      ensures item != None ==> Reach(Value()) == Reach(old(Value()))[1..]
      ensures heldQitem == None
    {
      if heldQitem.Some? {
        item := heldQitem;
        heldQitem := None;
        return;
      }
      if !queueOpen || queue == [] { return None; }
      item := Some(queue[0]);
      queue := queue[1..];
    }

    /** The end of a turn of the batch loop: the next item, pushed back when its width is another. */
    method LookAtNext(width: nat) returns (l: Look)
      requires heldQitem == None
      modifies this`queue, this`heldQitem
      ensures l == Seen(Reach(old(Value())), width)
      ensures Value() == AfterLook(old(Value()), l)
      ensures l.Same? ==> heldQitem == None
    {
      var next := QueueGetNowait();
      if next == None { return Nothing; }
      if next.value.colNames == None { return Nameless; }
      if |next.value.colNames.value| != width {
        heldQitem := Some(next.value.(putCtr := HELD));
        return Other(next.value);
      }
      l := Same(next.value);
    }

    method GetRowsAndColNamesList() returns (r: GetResult)
      requires Valid(Value())
      modifies this`queue, this`heldQitem
      ensures (r, Value()) == GetRows(old(Value()), maxRowsInGet)
    {
      if !b_openGet { return Closed; }
      var first := QueueGetNowait();
      if first == None { return Empty; }
      var qItem := first.value;
      if qItem.colNames == None { return Failed; }
      r := BatchFrom(qItem, qItem.colNames.value, old(Value()));
    }

    /** The batch loop; s is the state before the first item was taken. */
    method BatchFrom(first: Item, colNames: seq<string>, ghost s: State) returns (r: GetResult)
      requires Valid(s) && Reach(s) != [] && Reach(s)[0] == first && first.colNames == Some(colNames) && s.openGet
      requires Value() == Taken(s, 1) && Reach(Value()) == Reach(s)[1..]
      modifies this`queue, this`heldQitem
      ensures (r, Value()) == GetRows(s, maxRowsInGet)
    {
      var rows, qItem := [], first;
      ghost var v := Value();
      FirstFilling(s, colNames, maxRowsInGet);
      while true
        invariant v == Value() && v.held == None && Filling(s, rows, qItem, v, |colNames|, maxRowsInGet)
        decreases |Reach(v)|
      {
        Turn(s, rows, qItem, v, colNames, maxRowsInGet);
        rows := rows + [qItem.row];
        if |rows| >= maxRowsInGet || qItem.putCtr == HELD { return Batch(colNames, rows); }
        var l := LookAtNext(|colNames|);
        if !l.Same? { return if l.Nameless? && colNames == [] then Failed else Batch(colNames, rows); }
        qItem, v := l.item, Taken(v, 1);
      }
    }

    /** The loop of shutdownAndDump(): everything that can be reached is written, in order. */
    method DumpItems() returns (out: seq<Entry>)
      modifies this`queue, this`heldQitem
      ensures out == Entries(Reach(old(Value())))
      ensures Value() == Taken(old(Value()), |Reach(old(Value()))|)
    {
      out := [];
      ghost var s, k := Value(), 0;
      while true
        invariant Dumped(s, k, Value(), out)
        decreases |Reach(Value())|
      {
        DumpTurn(s, k, Value(), out);
        var item := QueueGetNowait();
        if item == None { return; }
        out := out + [Entry(item.value.colNames, item.value.row)];
        k := k + 1;
      }
    }
  }

  /** The first k items were written. */
  ghost predicate Dumped(s: State, k: nat, v: State, out: seq<Entry>) {
    k <= |Reach(s)| && v == Taken(s, k) && Reach(v) == Reach(s)[k..] && out == Entries(Reach(s)[..k])
  }

  lemma DumpTurn(s: State, k: nat, v: State, out: seq<Entry>)
    requires Dumped(s, k, v, out)
    ensures Reach(v) == [] ==> k == |Reach(s)| && out == Entries(Reach(s))
    ensures Reach(v) != [] ==> Dumped(s, k + 1, Taken(v, 1), out + [EntryOf(Reach(v)[0])])
  {
    if Reach(v) == [] {
      assert Reach(s)[..k] == Reach(s);
    } else {
      TakenOneMore(s, k);
      EntryPushed(Reach(s), k);
    }
  }

  lemma EntryPushed(items: seq<Item>, k: nat)
    requires k < |items|
    ensures Entries(items[..k + 1]) == Entries(items[..k]) + [EntryOf(items[k])]
  {}

  lemma TakenOneMore(s: State, k: nat)
    requires k < |Reach(s)|
    ensures Taken(Taken(s, k), 1) == Taken(s, k + 1)
    ensures Reach(Taken(s, k + 1)) == Reach(s)[k + 1..]
  {}
}
