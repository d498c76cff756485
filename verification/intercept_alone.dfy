/** A thread that serves a batch request alone, step by step, does what the request does as a whole. */
module InterceptAlone {
  import opened Strings
  import opened InterceptQueues
  import opened InterceptSteps

  predicate StepsOf(evs: seq<Event>, t: nat) {
    forall i :: 0 <= i < |evs| ==> evs[i] == BeginBatch(t) || evs[i] == Step(t)
  }

  function First(items: seq<Item>): Option<Item> { if items == [] then None else Some(items[0]) }

  /** queueGetNowait(), step by step. */
  lemma OneGet(s: Sys, t: nat, l: Limits) returns (evs: seq<Event>)
    requires Active(s, t) && s.threads[t].pc.AtLook?
    ensures StepsOf(evs, t)
    ensures var item := First(Reach(s.q));
            After(s, evs, l) == Taking(s, t, item, l).(q := Taken(s.q, if item == None then 0 else 1))
  {
    var item := First(Reach(s.q));
    if s.q.held == None {
      evs := [Step(t), Step(t)];
      TwoSteps(s, Step(t), Step(t), l);
      SamePc(s, t, AtGet, item, l);
    } else {
      evs := [Step(t), Step(t)] + [Step(t)];
      TwoSteps(s, Step(t), Step(t), l);
      AfterJoin(s, [Step(t), Step(t)], [Step(t)], l);
      var s1 := s.(threads := s.threads[t := WithPc(s.threads[t], AtRead)]);
      var s2 := s.(threads := s.threads[t := WithPc(s.threads[t], AtClear(s.q.held))]);
      assert Next(s, Step(t), l) == s1;
      assert s1.threads[t := s2.threads[t]] == s2.threads;
      assert Next(s1, Step(t), l) == s2;
      assert [Step(t)][1..] == [];
      assert After(s2, [Step(t)], l) == Next(s2, Step(t), l);
      SamePc(s, t, AtClear(s.q.held), item, l);
    }
  }

  /** What a thread takes does not depend on where it was. */
  lemma SamePc(s: Sys, t: nat, pc: Pc, item: Option<Item>, l: Limits)
    requires Active(s, t)
    ensures var s' := s.(threads := s.threads[t := WithPc(s.threads[t], pc)]);
            Taking(s', t, item, l) == Taking(s, t, item, l)
  {
    var th := s.threads[t];
    assert Take(WithPc(th, pc), item, l.maxRowsInGet) == Take(th, item, l.maxRowsInGet);
    var r := Take(th, item, l.maxRowsInGet);
    assert s.threads[t := WithPc(th, pc)][t := r.0] == s.threads[t := r.0];
  }

  /** The state when a batch request is over that has found these items, with the result r; base is the state
      before it. */
  ghost predicate Over(base: Sys, s: Sys, items: seq<Item>, r: (GetResult, State)) {
    && s.threads == base.threads && s.q == r.1
    && if r.0.Batch? then |r.0.rows| <= |items| && s.delivered == base.delivered + Nos(items[..|r.0.rows|])
       else s.delivered == base.delivered
  }

  /** Only thread t has gone on since base. */
  predicate OnlySince(base: Sys, s: Sys, t: nat) {
    t < |s.threads| && s.threads[t := Idle] == base.threads && s.delivered == base.delivered
  }

  lemma ThreadOnly(base: Sys, s: Sys, t: nat, item: Option<Item>, l: Limits)
    requires OnlySince(base, s, t) && !s.threads[t].Idle? && Take(s.threads[t], item, l.maxRowsInGet).0.Idle?
    ensures Taking(s, t, item, l).threads == base.threads
  {}

  /** The last row that there is room for. */
  lemma EndsFull(base: Sys, s: Sys, t: nat, l: Limits, items: seq<Item>, n: nat, colNames: seq<string>,
                 rows: seq<seq<string>>)
    requires OnlySince(base, s, t) && s.threads[t].Batching? && n < |items| && s.threads[t].got == items[..n]
    requires n > 0 ==> s.threads[t].colNames == colNames
    requires HasWidth(items[n], |colNames|) && |rows| == n + 1
    requires n + 1 >= l.maxRowsInGet || items[n].putCtr == HELD
    ensures Over(base, Taking(s, t, Some(items[n]), l), items, (Batch(colNames, rows), s.q))
  {
    assert items[..n] + [items[n]] == items[..n + 1];
    ThreadOnly(base, s, t, Some(items[n]), l);
  }

  /** A thread that has n items of a batch, and is about to look for the next. */
  predicate HasBatch(base: Sys, s: Sys, t: nat, items: seq<Item>, n: nat, colNames: seq<string>) {
    OnlySince(base, s, t) && 0 < n <= |items| && s.threads[t] == Batching(AtLook, colNames, items[..n])
  }

  lemma EndsEmpty(base: Sys, v: Sys, t: nat, l: Limits, items: seq<Item>, n: nat, colNames: seq<string>,
                  rows: seq<seq<string>>)
    requires HasBatch(base, v, t, items, n, colNames) && |rows| == n
    ensures Over(base, Taking(v, t, None, l), items, (Batch(colNames, rows), v.q))
  {
    ThreadOnly(base, v, t, None, l);
  }

  lemma EndsNameless(base: Sys, v: Sys, t: nat, l: Limits, items: seq<Item>, n: nat, colNames: seq<string>,
                     rows: seq<seq<string>>, item: Item)
    requires HasBatch(base, v, t, items, n, colNames) && |rows| == n && item.colNames == None
    ensures Over(base, Taking(v, t, Some(item), l), items,
                 (if colNames == [] then Failed else Batch(colNames, rows), v.q))
  {
    ThreadOnly(base, v, t, Some(item), l);
  }

  lemma EndsOther(base: Sys, v: Sys, t: nat, l: Limits, items: seq<Item>, n: nat, colNames: seq<string>,
                  rows: seq<seq<string>>, item: Item)
    requires HasBatch(base, v, t, items, n, colNames) && |rows| == n
    requires item.colNames.Some? && |item.colNames.value| != |colNames|
    ensures Over(base, Next(Taking(v, t, Some(item), l), Step(t), l), items,
                 (Batch(colNames, rows), v.q.(held := Some(item.(putCtr := HELD)))))
  {
    var w := Taking(v, t, Some(item), l);
    assert w.threads[t] == Batching(AtPush(item), colNames, items[..n]);
    assert w.threads[t := Idle] == v.threads[t := Idle];
  }

  lemma RestOf(q: State, k: nat)
    requires 1 <= k <= |Reach(q)|
    ensures Reach(Taken(q, k)) == Reach(q)[k..] && Taken(q, k).held == None
    ensures k < |Reach(q)| ==> Taken(Taken(q, k), 1) == Taken(q, k + 1)
  {
    assert HeldItems(Taken(q, k)) == [];
  }

  /** The thread is given items[n], which has the width of the first n. */
  lemma TakesSame(base: Sys, v: Sys, t: nat, l: Limits, items: seq<Item>, n: nat, colNames: seq<string>)
    requires OnlySince(base, v, t) && v.threads[t].Batching? && n < |items| && v.threads[t].got == items[..n]
    requires if n > 0 then v.threads[t].colNames == colNames else items[0].colNames == Some(colNames)
    requires HasWidth(items[n], |colNames|) && n + 1 < l.maxRowsInGet && items[n].putCtr != HELD
    ensures HasBatch(base, Taking(v, t, Some(items[n]), l), t, items, n + 1, colNames)
  {
    assert items[..n] + [items[n]] == items[..n + 1];
  }

  /** The request of q0 has taken n items, in a batch that goes on. */
  ghost predicate OnTheWay(base: Sys, u: Sys, t: nat, q0: State, n: nat, maxRows: int) {
    && Valid(q0) && q0.openGet && 0 < n <= |Reach(q0)| && Reach(q0)[0].colNames.Some?
    && HasBatch(base, u, t, Reach(q0), n, Reach(q0)[0].colNames.value) && u.q == Taken(q0, n)
    && n <= BatchSize(Reach(q0), maxRows) && n < maxRows && Reach(q0)[0].putCtr != HELD
  }

  /** The batch when its last item was taken, and the next one, if any, was looked at. */
  lemma RowsAre(q0: State, maxRows: int, n: nat)
    requires q0.openGet && Reach(q0) != [] && Reach(q0)[0].colNames.Some? && n == BatchSize(Reach(q0), maxRows)
    ensures var items, colNames := Reach(q0), Reach(q0)[0].colNames.value;
            var batch := Batch(colNames, RowsOf(items[..n]));
            GetRows(q0, maxRows)
            == if n == |items| || n == Room(items[0], maxRows) then (batch, Taken(q0, n))
               else if items[n].colNames == None then (if colNames == [] then Failed else batch, Taken(q0, n + 1))
               else (batch, Taken(q0, n + 1).(held := Some(items[n].(putCtr := HELD))))
  {}

  /** The next item is not one of the batch, or there is none. */
  lemma EndsAlone(base: Sys, v: Sys, t: nat, l: Limits, q0: State, n: nat) returns (evs: seq<Event>)
    requires q0.openGet && 0 < n <= |Reach(q0)| && Reach(q0)[0].colNames.Some?
    requires n == BatchSize(Reach(q0), l.maxRowsInGet) && n < Room(Reach(q0)[0], l.maxRowsInGet)
    requires HasBatch(base, v, t, Reach(q0), n, Reach(q0)[0].colNames.value)
    requires v.q == Taken(q0, if n == |Reach(q0)| then n else n + 1)
    ensures StepsOf(evs, t)
    ensures Over(base, After(Taking(v, t, First(Reach(q0)[n..]), l), evs, l), Reach(q0), GetRows(q0, l.maxRowsInGet))
  {
    var items, colNames, rows := Reach(q0), Reach(q0)[0].colNames.value, RowsOf(Reach(q0)[..n]);
    RowsAre(q0, l.maxRowsInGet, n);
    evs := [];
    if n == |items| {
      EndsEmpty(base, v, t, l, items, n, colNames, rows);
    } else if items[n].colNames == None {
      EndsNameless(base, v, t, l, items, n, colNames, rows, items[n]);
    } else {
      evs := [Step(t)];
      OneStep(Taking(v, t, Some(items[n]), l), Step(t), l);
      EndsOther(base, v, t, l, items, n, colNames, rows, items[n]);
    }
  }

  /** The next item is one of the batch. */
  lemma TakesOn(base: Sys, v: Sys, t: nat, l: Limits, q0: State, n: nat)
    requires Valid(q0) && q0.openGet && 0 < n < |Reach(q0)| && Reach(q0)[0].colNames.Some?
    requires HasBatch(base, v, t, Reach(q0), n, Reach(q0)[0].colNames.value) && v.q == Taken(q0, n + 1)
    requires n < BatchSize(Reach(q0), l.maxRowsInGet) && n < l.maxRowsInGet && Reach(q0)[0].putCtr != HELD
    ensures var u := Taking(v, t, Some(Reach(q0)[n]), l);
            if n + 1 >= l.maxRowsInGet then Over(base, u, Reach(q0), GetRows(q0, l.maxRowsInGet))
            else OnTheWay(base, u, t, q0, n + 1, l.maxRowsInGet)
  {
    var items, colNames := Reach(q0), Reach(q0)[0].colNames.value;
    OnlyFirstHeld(q0);
    if n + 1 >= l.maxRowsInGet {
      RowsAre(q0, l.maxRowsInGet, n + 1);
      EndsFull(base, v, t, l, items, n, colNames, RowsOf(items[..n + 1]));
    } else {
      TakesSame(base, v, t, l, items, n, colNames);
    }
  }

  /** The batch loop, from the item after the first n. */
  lemma LoopAlone(base: Sys, u: Sys, t: nat, l: Limits, q0: State, n: nat) returns (evs: seq<Event>)
    requires OnTheWay(base, u, t, q0, n, l.maxRowsInGet)
    ensures StepsOf(evs, t) && Over(base, After(u, evs, l), Reach(q0), GetRows(q0, l.maxRowsInGet))
    decreases |Reach(q0)| - n
  {
    var items := Reach(q0);
    var gets := OneGet(u, t, l);
    RestOf(q0, n);
    var v, rest := u.(q := Taken(q0, if n == |items| then n else n + 1)), [];
    if n < BatchSize(items, l.maxRowsInGet) {
      TakesOn(base, v, t, l, q0, n);
      if n + 1 < l.maxRowsInGet { rest := LoopAlone(base, Taking(v, t, Some(items[n]), l), t, l, q0, n + 1); }
    } else {
      rest := EndsAlone(base, v, t, l, q0, n);
    }
    evs := gets + rest;
    AfterJoin(u, gets, rest, l);
  }

  /** A first item without column names, or none at all. */
  lemma NoBatch(s: Sys, begun: Sys, t: nat, l: Limits)
    requires IsIdle(s, t) && s.q.openGet && begun == Next(s, BeginBatch(t), l)
    requires Reach(s.q) == [] || Reach(s.q)[0].colNames == None
    ensures var k := if Reach(s.q) == [] then 0 else 1;
            Over(s, Taking(begun, t, First(Reach(s.q)), l).(q := Taken(s.q, k)), Reach(s.q),
                 GetRows(s.q, l.maxRowsInGet))
  {
    assert begun.threads[t := Idle] == s.threads;
    assert Nos([]) == [];
  }

  /** The first item, when it has column names. */
  lemma FirstTurn(s: Sys, v: Sys, t: nat, l: Limits) returns (evs: seq<Event>)
    requires IsIdle(s, t) && Valid(s.q) && s.q.openGet && Reach(s.q) != [] && Reach(s.q)[0].colNames.Some?
    requires v == Next(s, BeginBatch(t), l).(q := Taken(s.q, 1))
    ensures StepsOf(evs, t)
    ensures Over(s, After(Taking(v, t, First(Reach(s.q)), l), evs, l), Reach(s.q), GetRows(s.q, l.maxRowsInGet))
  {
    var items, colNames := Reach(s.q), Reach(s.q)[0].colNames.value;
    assert v.threads[t := Idle] == s.threads && items[..0] == [];
    evs := [];
    if 1 >= l.maxRowsInGet || items[0].putCtr == HELD {
      EndsFull(s, v, t, l, items, 0, colNames, RowsOf(items[..1]));
    } else {
      TakesSame(s, v, t, l, items, 0, colNames);
      evs := LoopAlone(s, Taking(v, t, Some(items[0]), l), t, l, s.q, 1);
    }
  }

  /** A thread that serves its request alone does what GetRows() says. */
  lemma AloneIsGetRows(s: Sys, t: nat, l: Limits) returns (evs: seq<Event>)
    requires IsIdle(s, t) && Valid(s.q) && s.q.openGet
    ensures StepsOf(evs, t) && Over(s, After(s, evs, l), Reach(s.q), GetRows(s.q, l.maxRowsInGet))
  {
    var begun := Next(s, BeginBatch(t), l);
    OneStep(s, BeginBatch(t), l);
    var gets := OneGet(begun, t, l);
    var rest := [];
    if Reach(s.q) == [] || Reach(s.q)[0].colNames == None {
      NoBatch(s, begun, t, l);
    } else {
      rest := FirstTurn(s, begun.(q := Taken(s.q, 1)), t, l);
    }
    AfterJoin(begun, gets, rest, l);
    AfterJoin(s, [BeginBatch(t)], gets + rest, l);
    evs := [BeginBatch(t)] + (gets + rest);
  }
}
