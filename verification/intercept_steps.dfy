/** The batch requests of an intercept queue as its threads run them: nothing locks the held row, so each
    look at it, read of it and assignment to it is a step. */
module InterceptSteps {
  import opened Strings
  import opened InterceptQueues

  /** Where a thread is in queueGetNowait(): about to test whether a row is held; about to read it; about to
      clear it, with what it has read; or about to take from the inner queue. Or it is about to hold back
      an item. */
  datatype Pc = AtLook | AtRead | AtClear(read: Option<Item>) | AtGet | AtPush(item: Item)

  /** A thread that makes a batch has taken the items got, and the names of the columns of the first. */
  datatype Thread = Idle | Batching(pc: Pc, colNames: seq<string>, got: seq<Item>) | Dumping(pc: Pc)

  /** delivered is the numbers of the rows that were given out or written to a dump, in order; dropped those
      that a batch has lost to an item without column names, with the number of that item. */
  datatype Sys = Sys(q: State, threads: seq<Thread>, delivered: seq<nat>, dropped: seq<nat>)

  datatype Event =
    | PutOne(colNames: Option<seq<string>>, row: seq<string>)
    | BeginBatch(t: nat)
    | BeginDump(t: nat)
    | Step(t: nat)
    | AssignOpenStatus(openGet: Option<bool>, openPut: Option<bool>)
    | CloseInnerQueue

  function Nos(items: seq<Item>): seq<nat> { seq(|items|, i requires 0 <= i < |items| => items[i].no) }

  predicate IsIdle(s: Sys, t: nat) { t < |s.threads| && s.threads[t].Idle? }

  /** What a thread does with the item it got, if any: its next state, and what it delivers and drops. */
  function Take(th: Thread, item: Option<Item>, maxRows: int): (Thread, seq<nat>, seq<nat>) {
    match th
    case Idle => (Idle, [], [])
    case Dumping(_) => if item == None then (Idle, [], []) else (Dumping(AtLook), [item.value.no], [])
    case Batching(_, colNames, got) =>
      if item == None then (Idle, Nos(got), [])
      else if item.value.colNames == None then
        if got == [] || colNames == [] then (Idle, [], Nos(got) + [item.value.no])
        else (Idle, Nos(got), [item.value.no])
      else
        var names := if got == [] then item.value.colNames.value else colNames;
        var all := got + [item.value];
        if got != [] && |item.value.colNames.value| != |colNames|
        then (Batching(AtPush(item.value), names, got), [], [])
        else if |all| >= maxRows || item.value.putCtr == HELD then (Idle, Nos(all), [])
        else (Batching(AtLook, names, all), [], [])
  }

  function WithPc(th: Thread, pc: Pc): Thread {
    match th
    case Idle => Idle
    case Batching(_, colNames, got) => Batching(pc, colNames, got)
    case Dumping(_) => Dumping(pc)
  }

  function Taking(s: Sys, t: nat, item: Option<Item>, l: Limits): Sys
    requires t < |s.threads|
  {
    var r := Take(s.threads[t], item, l.maxRowsInGet);
    s.(threads := s.threads[t := r.0], delivered := s.delivered + r.1, dropped := s.dropped + r.2)
  }

  function Move(s: Sys, t: nat, l: Limits): Sys
    requires t < |s.threads| && !s.threads[t].Idle?
  {
    var th := s.threads[t];
    match th.pc
    case AtLook => s.(threads := s.threads[t := WithPc(th, if s.q.held.Some? then AtRead else AtGet)])
    case AtRead => s.(threads := s.threads[t := WithPc(th, AtClear(s.q.held))])
    case AtClear(item) => Taking(s, t, item, l).(q := s.q.(held := None))
    case AtGet =>
      if !s.q.queueOpen || s.q.queue == [] then Taking(s, t, None, l)
      else Taking(s, t, Some(s.q.queue[0]), l).(q := s.q.(queue := s.q.queue[1..]))
    case AtPush(item) =>
      s.(threads := s.threads[t := Idle], q := s.q.(held := Some(item.(putCtr := HELD))),
         delivered := s.delivered + if th.Batching? then Nos(th.got) else [])
  }

  function Next(s: Sys, ev: Event, l: Limits): Sys {
    match ev
    case PutOne(colNames, row) => s.(q := PutRow(s.q, l.queueMax, colNames, row).1)
    case BeginBatch(t) =>
      if IsIdle(s, t) && s.q.openGet then s.(threads := s.threads[t := Batching(AtLook, [], [])]) else s
    case BeginDump(t) => if IsIdle(s, t) then s.(threads := s.threads[t := Dumping(AtLook)]) else s
    case Step(t) => if t < |s.threads| && !s.threads[t].Idle? then Move(s, t, l) else s
    case AssignOpenStatus(openGet, openPut) =>
      s.(q := s.q.(openGet := if openGet.Some? then openGet.value else s.q.openGet,
                   openPut := if openPut.Some? then openPut.value else s.q.openPut))
    case CloseInnerQueue => s.(q := s.q.(queueOpen := false))
  }

  function After(s: Sys, evs: seq<Event>, l: Limits): Sys
    decreases evs
  {
    if evs == [] then s else After(Next(s, evs[0], l), evs[1..], l)
  }

  /** n threads, and nothing in the queue. */
  function Start(n: nat): Sys { Sys(State([], true, None, true, true, 0), seq(n, _ => Idle), [], []) }

  // ----- Where the rows are

  /** How many times the number is there. */
  function CountIn(nos: seq<nat>, no: nat): nat { multiset(nos)[no] }

  function One(b: bool): nat { if b then 1 else 0 }

  predicate PcHas(pc: Pc, no: nat) {
    match pc
    case AtClear(read) => read.Some? && read.value.no == no
    case AtPush(item) => item.no == no
    case _ => false
  }

  /** In the variables of a thread. */
  function Has(th: Thread, no: nat): nat {
    match th
    case Idle => 0
    case Batching(pc, _, got) => CountIn(Nos(got), no) + One(PcHas(pc, no))
    case Dumping(pc) => One(PcHas(pc, no))
  }

  function Hands(ths: seq<Thread>, no: nat): nat {
    if ths == [] then 0 else Has(ths[0], no) + Hands(ths[1..], no)
  }

  /** The thread has read the held row, and has not cleared it yet. */
  predicate Claims(th: Thread, no: nat) { !th.Idle? && th.pc.AtClear? && PcHas(th.pc, no) }

  ghost predicate Claimed(ths: seq<Thread>, no: nat) {
    exists t :: 0 <= t < |ths| && Claims(ths[t], no)
  }

  /** The held row, when no thread has read it. */
  ghost predicate HeldFree(s: Sys, no: nat) {
    s.q.held.Some? && s.q.held.value.no == no && !Claimed(s.threads, no)
  }

  /** In how many places the row with this number is, of those from which it was given out or will be. */
  ghost function Places(s: Sys, no: nat): nat {
    CountIn(s.delivered, no) + Hands(s.threads, no) + One(HeldFree(s, no)) + CountIn(Nos(s.q.queue), no)
  }

  /** Every accepted row is in one place, once. */
  ghost predicate Kept(s: Sys) {
    forall no: nat :: Places(s, no) == One(no < s.q.puts)
  }

  /** The step reads a row that nobody else has read, or clears or overwrites no row that nobody has read. */
  ghost predicate Clean(s: Sys, ev: Event) {
    ev.Step? && ev.t < |s.threads| && !s.threads[ev.t].Idle? && s.q.held.Some? ==>
      match s.threads[ev.t].pc
      case AtRead => !Claimed(s.threads, s.q.held.value.no)
      case AtClear(_) => Claimed(s.threads, s.q.held.value.no)
      case AtPush(_) => Claimed(s.threads, s.q.held.value.no)
      case _ => true
  }

  // ----- Counting

  lemma {:induction false} HandsUpdate(ths: seq<Thread>, t: nat, th: Thread, no: nat)
    requires t < |ths|
    ensures Hands(ths[t := th], no) + Has(ths[t], no) == Hands(ths, no) + Has(th, no)
  {
    var new_ := ths[t := th];
    if t == 0 {
      assert new_[1..] == ths[1..];
    } else {
      assert new_[1..] == ths[1..][t - 1 := th];
      HandsUpdate(ths[1..], t - 1, th, no);
    }
  }

  lemma {:induction false} HandsHave(ths: seq<Thread>, t: nat, no: nat)
    requires t < |ths|
    ensures Hands(ths, no) >= Has(ths[t], no)
  {
    if t > 0 { HandsHave(ths[1..], t - 1, no); }
  }

  lemma CountJoin(a: seq<nat>, b: seq<nat>, no: nat)
    ensures CountIn(a + b, no) == CountIn(a, no) + CountIn(b, no)
  {}

  lemma CountOne(x: nat, no: nat)
    ensures CountIn([x], no) == One(x == no)
  {}

  lemma NosPush(items: seq<Item>, item: Item, no: nat)
    ensures CountIn(Nos(items + [item]), no) == CountIn(Nos(items), no) + One(item.no == no)
  {
    assert Nos(items + [item]) == Nos(items) + [item.no];
    CountJoin(Nos(items), [item.no], no);
    CountOne(item.no, no);
  }

  lemma HeadNo(q: seq<Item>, no: nat)
    requires q != []
    ensures CountIn(Nos(q), no) == CountIn(Nos(q[1..]), no) + One(q[0].no == no)
  {
    assert Nos(q) == [q[0].no] + Nos(q[1..]);
    CountJoin([q[0].no], Nos(q[1..]), no);
    CountOne(q[0].no, no);
  }

  predicate IsNo(item: Option<Item>, no: nat) { item.Some? && item.value.no == no }

  /** What the thread takes is what it has then, and what it delivers and drops. */
  ghost predicate Moves(th: Thread, item: Option<Item>, maxRows: int, no: nat)
    requires !th.Idle?
  {
    var r := Take(th, item, maxRows);
    && Has(r.0, no) + CountIn(r.1, no) + CountIn(r.2, no) + One(PcHas(th.pc, no)) == Has(th, no) + One(IsNo(item, no))
    && !Claims(r.0, no)
  }

  lemma NamelessMoves(th: Thread, item: Item, maxRows: int, no: nat)
    requires th.Batching? && item.colNames == None
    ensures Moves(th, Some(item), maxRows, no)
  {
    CountOne(item.no, no);
    CountJoin(Nos(th.got), [item.no], no);
    assert Nos([]) == [];
  }

  lemma NamedMoves(th: Thread, item: Item, maxRows: int, no: nat)
    requires th.Batching? && item.colNames.Some?
    ensures Moves(th, Some(item), maxRows, no)
  {
    NosPush(th.got, item, no);
  }

  lemma TakeKeeps(th: Thread, item: Option<Item>, maxRows: int, no: nat)
    requires !th.Idle?
    ensures Moves(th, item, maxRows, no)
  {
    if th.Dumping? || item == None {
      if item.Some? { CountOne(item.value.no, no); }
    } else if item.value.colNames == None {
      NamelessMoves(th, item.value, maxRows, no);
    } else {
      NamedMoves(th, item.value, maxRows, no);
    }
  }

  /** A claim is one of the threads, before and after t becomes th. */
  lemma ClaimedUpdate(ths: seq<Thread>, t: nat, th: Thread, no: nat)
    requires t < |ths|
    ensures Claims(th, no) ==> Claimed(ths[t := th], no)
    ensures !Claims(ths[t], no) && !Claims(th, no) ==> (Claimed(ths[t := th], no) <==> Claimed(ths, no))
  {
    var new_ := ths[t := th];
    if Claims(th, no) { assert Claims(new_[t], no); }
    if !Claims(ths[t], no) && !Claims(th, no) {
      if Claimed(ths, no) {
        var u :| 0 <= u < |ths| && Claims(ths[u], no);
        assert Claims(new_[u], no);
      }
      if Claimed(new_, no) {
        var u :| 0 <= u < |new_| && Claims(new_[u], no);
        assert Claims(ths[u], no);
      }
    }
  }

  /** The row in the hand of one thread, that is claimed by another, is in two places. */
  lemma ClaimedTwice(ths: seq<Thread>, t: nat, no: nat)
    requires t < |ths| && !Claims(ths[t], no) && Claimed(ths, no)
    ensures Hands(ths, no) >= Has(ths[t], no) + 1
  {
    var u :| 0 <= u < |ths| && Claims(ths[u], no);
    HandsUpdate(ths, t, Idle, no);
    HandsHave(ths[t := Idle], u, no);
  }

  // ----- Each step, for one number

  ghost predicate Active(s: Sys, t: nat) { t < |s.threads| && !s.threads[t].Idle? }

  lemma LookCounts(s: Sys, t: nat, l: Limits, no: nat)
    requires Active(s, t) && s.threads[t].pc.AtLook?
    ensures Places(Move(s, t, l), no) == Places(s, no)
  {
    var th := WithPc(s.threads[t], if s.q.held.Some? then AtRead else AtGet);
    HandsUpdate(s.threads, t, th, no);
    ClaimedUpdate(s.threads, t, th, no);
  }

  lemma ReadCounts(s: Sys, t: nat, l: Limits, no: nat)
    requires Active(s, t) && s.threads[t].pc.AtRead?
    ensures Places(Move(s, t, l), no) + One(HeldFree(s, no)) == Places(s, no) + One(IsNo(s.q.held, no))
  {
    var th := WithPc(s.threads[t], AtClear(s.q.held));
    HandsUpdate(s.threads, t, th, no);
    ClaimedUpdate(s.threads, t, th, no);
    assert PcHas(th.pc, no) == IsNo(s.q.held, no);
  }

  lemma ClearCounts(s: Sys, t: nat, l: Limits, no: nat)
    requires Active(s, t) && s.threads[t].pc.AtClear?
    ensures var r := Take(s.threads[t], s.threads[t].pc.read, l.maxRowsInGet);
            Places(Move(s, t, l), no) + CountIn(r.2, no) + One(HeldFree(s, no)) == Places(s, no)
  {
    var r := Take(s.threads[t], s.threads[t].pc.read, l.maxRowsInGet);
    TakeKeeps(s.threads[t], s.threads[t].pc.read, l.maxRowsInGet, no);
    HandsUpdate(s.threads, t, r.0, no);
    CountJoin(s.delivered, r.1, no);
  }

  /** What a thread gets from the inner queue. */
  function Got(s: Sys): Option<Item> { if !s.q.queueOpen || s.q.queue == [] then None else Some(s.q.queue[0]) }

  lemma GetCounts(s: Sys, t: nat, l: Limits, no: nat)
    requires Active(s, t) && s.threads[t].pc.AtGet?
    ensures var r := Take(s.threads[t], Got(s), l.maxRowsInGet);
            Places(Move(s, t, l), no) + CountIn(r.2, no) == Places(s, no)
  {
    var r := Take(s.threads[t], Got(s), l.maxRowsInGet);
    TakeKeeps(s.threads[t], Got(s), l.maxRowsInGet, no);
    HandsUpdate(s.threads, t, r.0, no);
    ClaimedUpdate(s.threads, t, r.0, no);
    CountJoin(s.delivered, r.1, no);
    if Got(s).Some? { HeadNo(s.q.queue, no); }
  }

  lemma PushCounts(s: Sys, t: nat, l: Limits, no: nat)
    requires Active(s, t) && s.threads[t].pc.AtPush? && Places(s, no) <= 1
    ensures Places(Move(s, t, l), no) + One(HeldFree(s, no)) == Places(s, no)
  {
    var th := s.threads[t];
    HandsUpdate(s.threads, t, Idle, no);
    ClaimedUpdate(s.threads, t, Idle, no);
    CountJoin(s.delivered, if th.Batching? then Nos(th.got) else [], no);
    if th.pc.item.no == no && Claimed(s.threads, no) { ClaimedTwice(s.threads, t, no); }
  }

  // ----- Each step, for all numbers

  /** What was in one place is in one place less those that are taken away. */
  lemma KeptIff(s: Sys, s': Sys, gone: seq<nat>, free: bool)
    requires Kept(s) && s'.q.puts == s.q.puts && (free ==> s.q.held.Some?)
    requires forall no: nat :: Places(s', no) + CountIn(gone, no) + One(free && IsNo(s.q.held, no)) == Places(s, no)
    ensures Kept(s') <==> gone == [] && !free
  {
    if gone != [] {
      assert gone[0] in multiset(gone);
      assert CountIn(gone, gone[0]) >= 1;
      assert Places(s', gone[0]) < Places(s, gone[0]);
    } else if free {
      var no := s.q.held.value.no;
      assert Places(s', no) < Places(s, no);
    } else {
      forall no: nat ensures Places(s', no) == One(no < s'.q.puts) {
        assert CountIn(gone, no) == 0;
        assert Places(s, no) == One(no < s.q.puts);
      }
    }
  }

  ghost predicate HeldIsFree(s: Sys) { s.q.held.Some? && !Claimed(s.threads, s.q.held.value.no) }

  lemma ReadIff(s: Sys, t: nat, l: Limits)
    requires Kept(s) && Active(s, t) && s.threads[t].pc.AtRead?
    ensures Kept(Move(s, t, l)) <==> Clean(s, Step(t))
  {
    var s' := Move(s, t, l);
    forall no: nat ensures Places(s', no) + One(HeldFree(s, no)) == Places(s, no) + One(IsNo(s.q.held, no)) {
      ReadCounts(s, t, l, no);
    }
    if s.q.held.Some? && !HeldIsFree(s) {
      var no := s.q.held.value.no;
      assert Places(s', no) == Places(s, no) + 1;
    } else {
      forall no: nat ensures Places(s', no) == One(no < s'.q.puts) {
        assert HeldFree(s, no) == IsNo(s.q.held, no);
        assert Places(s, no) == One(no < s.q.puts);
      }
    }
  }

  lemma ClearIff(s: Sys, t: nat, l: Limits)
    requires Kept(s) && Active(s, t) && s.threads[t].pc.AtClear?
    ensures Kept(Move(s, t, l)) <==> Clean(s, Step(t)) && Move(s, t, l).dropped == s.dropped
  {
    var r := Take(s.threads[t], s.threads[t].pc.read, l.maxRowsInGet);
    forall no: nat
      ensures Places(Move(s, t, l), no) + CountIn(r.2, no) + One(HeldIsFree(s) && IsNo(s.q.held, no)) == Places(s, no)
    {
      ClearCounts(s, t, l, no);
    }
    KeptIff(s, Move(s, t, l), r.2, HeldIsFree(s));
    SameAfter(s.dropped, r.2);
  }

  lemma SameAfter(a: seq<nat>, b: seq<nat>)
    ensures a + b == a <==> b == []
  {
    assert |a + b| == |a| + |b|;
  }

  lemma GetIff(s: Sys, t: nat, l: Limits)
    requires Kept(s) && Active(s, t) && s.threads[t].pc.AtGet?
    ensures Kept(Move(s, t, l)) <==> Move(s, t, l).dropped == s.dropped
  {
    var r := Take(s.threads[t], Got(s), l.maxRowsInGet);
    forall no: nat ensures Places(Move(s, t, l), no) + CountIn(r.2, no) == Places(s, no) {
      GetCounts(s, t, l, no);
    }
    KeptIff(s, Move(s, t, l), r.2, false);
    SameAfter(s.dropped, r.2);
  }

  lemma PushIff(s: Sys, t: nat, l: Limits)
    requires Kept(s) && Active(s, t) && s.threads[t].pc.AtPush?
    ensures Kept(Move(s, t, l)) <==> Clean(s, Step(t))
  {
    forall no: nat
      ensures Places(Move(s, t, l), no) + CountIn([], no) + One(HeldIsFree(s) && IsNo(s.q.held, no)) == Places(s, no)
    {
      PushCounts(s, t, l, no);
    }
    KeptIff(s, Move(s, t, l), [], HeldIsFree(s));
  }

  lemma MoveIff(s: Sys, t: nat, l: Limits)
    requires Kept(s) && Active(s, t)
    ensures Kept(Move(s, t, l)) <==> Clean(s, Step(t)) && Move(s, t, l).dropped == s.dropped
  {
    match s.threads[t].pc
    case AtLook =>
      forall no: nat ensures Places(Move(s, t, l), no) == One(no < s.q.puts) { LookCounts(s, t, l, no); }
    case AtRead => ReadIff(s, t, l);
    case AtClear(_) => ClearIff(s, t, l);
    case AtGet => GetIff(s, t, l);
    case AtPush(_) => PushIff(s, t, l);
  }

  lemma PutKeeps(s: Sys, colNames: Option<seq<string>>, row: seq<string>, l: Limits)
    requires Kept(s)
    ensures Kept(Next(s, PutOne(colNames, row), l))
  {
    var s' := Next(s, PutOne(colNames, row), l);
    forall no: nat ensures Places(s', no) == One(no < s'.q.puts) {
      assert Places(s, no) == One(no < s.q.puts);
      NosPush(s.q.queue, Item(colNames, row, 0, s.q.puts), no);
      assert HeldFree(s', no) == HeldFree(s, no);
    }
  }

  lemma BeginKeeps(s: Sys, t: nat, th: Thread)
    requires Kept(s) && IsIdle(s, t) && (th == Batching(AtLook, [], []) || th == Dumping(AtLook))
    ensures Kept(s.(threads := s.threads[t := th]))
  {
    var s' := s.(threads := s.threads[t := th]);
    assert Nos([]) == [];
    forall no: nat ensures Places(s', no) == One(no < s'.q.puts) {
      assert Places(s, no) == One(no < s.q.puts);
      HandsUpdate(s.threads, t, th, no);
      ClaimedUpdate(s.threads, t, th, no);
    }
  }

  lemma FlagKeeps(s: Sys, s': Sys)
    requires Kept(s) && s'.q.queue == s.q.queue && s'.q.held == s.q.held && s'.q.puts == s.q.puts
    requires s'.threads == s.threads && s'.delivered == s.delivered
    ensures Kept(s')
  {
    forall no: nat ensures Places(s', no) == One(no < s'.q.puts) {
      assert Places(s, no) == One(no < s.q.puts);
      assert HeldFree(s', no) == HeldFree(s, no);
    }
  }

  /** A step keeps every row in one place exactly when it is clean and drops nothing. */
  lemma StepIff(s: Sys, ev: Event, l: Limits)
    requires Kept(s)
    ensures Kept(Next(s, ev, l)) <==> Clean(s, ev) && Next(s, ev, l).dropped == s.dropped
  {
    match ev
    case PutOne(colNames, row) => PutKeeps(s, colNames, row, l);
    case BeginBatch(t) => if IsIdle(s, t) { BeginKeeps(s, t, Batching(AtLook, [], [])); }
    case BeginDump(t) => if IsIdle(s, t) { BeginKeeps(s, t, Dumping(AtLook)); }
    case Step(t) => if Active(s, t) { MoveIff(s, t, l); }
    case _ => FlagKeeps(s, Next(s, ev, l));
  }

  // ----- Every run

  /** In every state of the run each accepted row is in one place. */
  ghost predicate AlwaysKept(s: Sys, evs: seq<Event>, l: Limits)
    decreases evs
  {
    Kept(s) && (evs != [] ==> AlwaysKept(Next(s, evs[0], l), evs[1..], l))
  }

  /** Every step of the run is clean, and meets no item without column names. */
  ghost predicate AlwaysClean(s: Sys, evs: seq<Event>, l: Limits)
    decreases evs
  {
    evs != [] ==>
      Clean(s, evs[0]) && Next(s, evs[0], l).dropped == s.dropped && AlwaysClean(Next(s, evs[0], l), evs[1..], l)
  }

  lemma {:induction false} RunsIff(s: Sys, evs: seq<Event>, l: Limits)
    requires Kept(s)
    ensures AlwaysKept(s, evs, l) <==> AlwaysClean(s, evs, l)
    decreases evs
  {
    if evs != [] {
      StepIff(s, evs[0], l);
      if Kept(Next(s, evs[0], l)) { RunsIff(Next(s, evs[0], l), evs[1..], l); }
    }
  }

  lemma StartIsKept(n: nat)
    ensures Kept(Start(n))
  {
    assert Nos([]) == [];
    forall no: nat ensures Places(Start(n), no) == One(no < 0) { NothingInHands(n, no); }
  }

  lemma {:induction false} NothingInHands(n: nat, no: nat)
    ensures Hands(seq(n, _ => Idle), no) == 0
  {
    if n > 0 {
      assert seq(n, _ => Idle)[1..] == seq(n - 1, _ => Idle);
      NothingInHands(n - 1, no);
    }
  }

  /** With any number of threads, in every interleaving: each accepted row is at all times in one place, if
      and only if no step reads a held row that another thread has read, none clears or overwrites one that
      nobody has read, and none meets an item without column names. */
  lemma NothingLostNorTwiceIff(n: nat, evs: seq<Event>, l: Limits)
    ensures AlwaysKept(Start(n), evs, l) <==> AlwaysClean(Start(n), evs, l)
  {
    StartIsKept(n);
    RunsIff(Start(n), evs, l);
  }

  // ----- Two threads at once

  lemma {:induction false} AfterJoin(s: Sys, es: seq<Event>, fs: seq<Event>, l: Limits)
    ensures After(s, es + fs, l) == After(After(s, es, l), fs, l)
    decreases es
  {
    if es == [] {
      assert es + fs == fs;
    } else {
      assert (es + fs)[1..] == es[1..] + fs;
      AfterJoin(Next(s, es[0], l), es[1..], fs, l);
    }
  }

  lemma OneStep(s: Sys, e: Event, l: Limits)
    ensures After(s, [e], l) == Next(s, e, l)
  {
    assert [e][1..] == [];
  }

  lemma TwoSteps(s: Sys, a: Event, b: Event, l: Limits)
    ensures After(s, [a, b], l) == Next(Next(s, a, l), b, l)
  {
    assert [a, b][1..] == [b] && [b][1..] == [];
    assert After(Next(s, a, l), [b], l) == Next(Next(s, a, l), b, l);
  }

  /** Two rows of one width, and two of another. */
  predicate FourRows(items: seq<Item>, a: seq<string>, b: seq<string>) {
    && |items| == 4 && |a| != |b|
    && (forall i :: 0 <= i < 4 ==> items[i].no == i && items[i].putCtr != HELD)
    && items[0].colNames == items[1].colNames == Some(a) && items[2].colNames == items[3].colNames == Some(b)
  }

  /** Thread t, with no row held, takes the next row: it looks, and gets. */
  lemma TakesNext(s: Sys, t: nat, l: Limits)
    requires Active(s, t) && s.threads[t].pc.AtLook? && s.q.held == None && s.q.queueOpen && s.q.queue != []
    ensures After(s, [Step(t), Step(t)], l)
            == Taking(s, t, Some(s.q.queue[0]), l).(q := s.q.(queue := s.q.queue[1..]))
  {
    TwoSteps(s, Step(t), Step(t), l);
    var th := WithPc(s.threads[t], AtGet);
    var s1 := Next(s, Step(t), l);
    assert s1.threads == s.threads[t := th];
    var r := Take(s.threads[t], Some(s.q.queue[0]), l.maxRowsInGet);
    assert Take(th, Some(s.q.queue[0]), l.maxRowsInGet) == r;
    assert s.threads[t := th][t := r.0] == s.threads[t := r.0];
  }

  const BOTH_TAKE := [BeginBatch(0), BeginBatch(1)]
                     + ([Step(0), Step(0)] + ([Step(1), Step(1)] + ([Step(0), Step(0)] + [Step(1), Step(1)])))
  const BOTH_HOLD_BACK := [Step(0), Step(1)]

  lemma BothTake(s: Sys, items: seq<Item>, a: seq<string>, b: seq<string>, l: Limits)
    requires s == Sys(State(items, true, None, true, true, 4), [Idle, Idle], [], []) && FourRows(items, a, b)
    requires l.maxRowsInGet >= 3
    ensures After(s, BOTH_TAKE, l)
            == s.(q := s.q.(queue := []),
                  threads := [Batching(AtPush(items[2]), a, [items[0]]), Batching(AtPush(items[3]), a, [items[1]])])
  {
    var s1 := s.(threads := [Batching(AtLook, [], []), Batching(AtLook, [], [])]);
    TwoSteps(s, BeginBatch(0), BeginBatch(1), l);
    assert After(s, [BeginBatch(0), BeginBatch(1)], l) == s1;
    var s2 := s1.(q := s1.q.(queue := items[1..]),
                  threads := [Batching(AtLook, a, [items[0]]), Batching(AtLook, [], [])]);
    TakesNext(s1, 0, l);
    assert [] + [items[0]] == [items[0]];
    assert After(s1, [Step(0), Step(0)], l) == s2;
    var s3 := s2.(q := s.q.(queue := items[2..]),
                  threads := [Batching(AtLook, a, [items[0]]), Batching(AtLook, a, [items[1]])]);
    TakesNext(s2, 1, l);
    assert [] + [items[1]] == [items[1]] && items[1..][1..] == items[2..];
    assert After(s2, [Step(1), Step(1)], l) == s3;
    var s4 := s3.(q := s.q.(queue := items[3..]),
                  threads := [Batching(AtPush(items[2]), a, [items[0]]), Batching(AtLook, a, [items[1]])]);
    TakesNext(s3, 0, l);
    assert items[2..][1..] == items[3..];
    assert After(s3, [Step(0), Step(0)], l) == s4;
    TakesNext(s4, 1, l);
    assert items[3..][1..] == [];
    AfterJoin(s3, [Step(0), Step(0)], [Step(1), Step(1)], l);
    AfterJoin(s2, [Step(1), Step(1)], [Step(0), Step(0)] + [Step(1), Step(1)], l);
    AfterJoin(s1, [Step(0), Step(0)], [Step(1), Step(1)] + ([Step(0), Step(0)] + [Step(1), Step(1)]), l);
    AfterJoin(s, [BeginBatch(0), BeginBatch(1)],
              [Step(0), Step(0)] + ([Step(1), Step(1)] + ([Step(0), Step(0)] + [Step(1), Step(1)])), l);
  }

  function PutAll(items: seq<Item>): seq<Event> {
    seq(|items|, i requires 0 <= i < |items| => PutOne(items[i].colNames, items[i].row))
  }

  /** Items as four puts make them. */
  predicate JustPut(items: seq<Item>) {
    forall i :: 0 <= i < |items| ==> items[i].no == i && items[i].putCtr == 0
  }

  lemma {:induction false} PutsMake(s: Sys, items: seq<Item>, k: nat, l: Limits)
    requires k <= |items| && JustPut(items) && s.q.queue == items[..k] && s.q.puts == k && s.q.queueOpen
    requires l.queueMax == 0
    ensures After(s, PutAll(items)[k..], l) == s.(q := s.q.(queue := items, puts := |items|))
    decreases |items| - k
  {
    var evs := PutAll(items)[k..];
    if k == |items| {
      assert items[..k] == items && evs == [];
    } else {
      assert evs[0] == PutOne(items[k].colNames, items[k].row) && evs[1..] == PutAll(items)[k + 1..];
      assert items[..k] + [items[k]] == items[..k + 1];
      PutsMake(Next(s, evs[0], l), items, k + 1, l);
    }
  }

  /** Two threads take a batch each, both meet a row of another width, and both hold theirs back: the one
      held back first is nowhere any more. */
  lemma HeldRowLost(items: seq<Item>, a: seq<string>, b: seq<string>, l: Limits)
    requires FourRows(items, a, b) && JustPut(items) && l.maxRowsInGet >= 3 && l.queueMax == 0
    ensures var t := After(Start(2), PutAll(items) + (BOTH_TAKE + BOTH_HOLD_BACK), l);
            && t.q.puts == 4 && t.q.queue == [] && t.q.held == Some(items[3].(putCtr := HELD))
            && t.threads == [Idle, Idle] && t.delivered == [0, 1] && t.dropped == []
  {
    var s := Sys(State(items, true, None, true, true, 4), [Idle, Idle], [], []);
    assert Start(2).threads == [Idle, Idle];
    PutsMake(Start(2), items, 0, l);
    assert PutAll(items)[0..] == PutAll(items);
    BothTake(s, items, a, b, l);
    TwoSteps(After(s, BOTH_TAKE, l), Step(0), Step(1), l);
    assert Nos([items[0]]) == [0] && Nos([items[1]]) == [1];
    AfterJoin(s, BOTH_TAKE, BOTH_HOLD_BACK, l);
    AfterJoin(Start(2), PutAll(items), BOTH_TAKE + BOTH_HOLD_BACK, l);
  }

  const ONE_TAKES := [BeginBatch(0)] + ([Step(0), Step(0)] + ([Step(0), Step(0)] + [Step(0)]))
  const BOTH_READ := [BeginBatch(0), BeginBatch(1)] + ([Step(0), Step(1)] + ([Step(0), Step(1)] + [Step(0), Step(1)]))

  /** A row is held back, and two threads read it before either clears it: both give it out. */
  lemma GivenOutTwice(items: seq<Item>, a: seq<string>, b: seq<string>, l: Limits)
    requires |items| == 2 && JustPut(items) && l.maxRowsInGet >= 2 && l.queueMax == 0
    requires items[0].colNames == Some(a) && items[1].colNames == Some(b) && |a| != |b|
    ensures var t := After(Start(2), PutAll(items) + (ONE_TAKES + BOTH_READ), l);
            t.q.puts == 2 && t.q.queue == [] && t.q.held == None && t.delivered == [0, 1, 1]
  {
    var s := Sys(State(items, true, None, true, true, 2), [Idle, Idle], [], []);
    assert Start(2).threads == [Idle, Idle];
    PutsMake(Start(2), items, 0, l);
    assert PutAll(items)[0..] == PutAll(items);
    OneTakes(s, items, a, b, l);
    var h := items[1].(putCtr := HELD);
    BothRead(After(s, ONE_TAKES, l), h, b, l);
    AfterJoin(s, ONE_TAKES, BOTH_READ, l);
    AfterJoin(Start(2), PutAll(items), ONE_TAKES + BOTH_READ, l);
  }

  lemma OneTakes(s: Sys, items: seq<Item>, a: seq<string>, b: seq<string>, l: Limits)
    requires s == Sys(State(items, true, None, true, true, 2), [Idle, Idle], [], [])
    requires |items| == 2 && JustPut(items) && l.maxRowsInGet >= 2
    requires items[0].colNames == Some(a) && items[1].colNames == Some(b) && |a| != |b|
    ensures After(s, ONE_TAKES, l)
            == s.(q := s.q.(queue := [], held := Some(items[1].(putCtr := HELD))), delivered := [0])
  {
    var s1 := s.(threads := [Batching(AtLook, [], []), Idle]);
    OneStep(s, BeginBatch(0), l);
    assert After(s, [BeginBatch(0)], l) == s1;
    var s2 := s.(q := s.q.(queue := items[1..]), threads := [Batching(AtLook, a, [items[0]]), Idle]);
    TakesNext(s1, 0, l);
    assert [] + [items[0]] == [items[0]];
    assert After(s1, [Step(0), Step(0)], l) == s2;
    var s3 := s.(q := s.q.(queue := []), threads := [Batching(AtPush(items[1]), a, [items[0]]), Idle]);
    TakesNext(s2, 0, l);
    assert items[1..][1..] == [];
    assert After(s2, [Step(0), Step(0)], l) == s3;
    OneStep(s3, Step(0), l);
    assert Nos([items[0]]) == [0];
    AfterJoin(s2, [Step(0), Step(0)], [Step(0)], l);
    AfterJoin(s1, [Step(0), Step(0)], [Step(0), Step(0)] + [Step(0)], l);
    AfterJoin(s, [BeginBatch(0)], [Step(0), Step(0)] + ([Step(0), Step(0)] + [Step(0)]), l);
  }

  lemma BothRead(s: Sys, h: Item, b: seq<string>, l: Limits)
    requires s.q == State([], true, Some(h), true, true, 2) && s.threads == [Idle, Idle] && s.delivered == [0]
    requires h.putCtr == HELD && h.no == 1 && h.colNames == Some(b)
    ensures After(s, BOTH_READ, l) == s.(q := s.q.(held := None), delivered := [0, 1, 1])
  {
    var s1 := s.(threads := [Batching(AtLook, [], []), Batching(AtLook, [], [])]);
    TwoSteps(s, BeginBatch(0), BeginBatch(1), l);
    assert After(s, [BeginBatch(0), BeginBatch(1)], l) == s1;
    var s2 := s.(threads := [Batching(AtRead, [], []), Batching(AtRead, [], [])]);
    TwoSteps(s1, Step(0), Step(1), l);
    assert After(s1, [Step(0), Step(1)], l) == s2;
    var s3 := s.(threads := [Batching(AtClear(Some(h)), [], []), Batching(AtClear(Some(h)), [], [])]);
    TwoSteps(s2, Step(0), Step(1), l);
    assert After(s2, [Step(0), Step(1)], l) == s3;
    BothClear(s3, h, b, l);
    AfterJoin(s2, [Step(0), Step(1)], [Step(0), Step(1)], l);
    AfterJoin(s1, [Step(0), Step(1)], [Step(0), Step(1)] + [Step(0), Step(1)], l);
    AfterJoin(s, [BeginBatch(0), BeginBatch(1)], [Step(0), Step(1)] + ([Step(0), Step(1)] + [Step(0), Step(1)]), l);
  }

  lemma BothClear(s: Sys, h: Item, b: seq<string>, l: Limits)
    requires s.threads == [Batching(AtClear(Some(h)), [], []), Batching(AtClear(Some(h)), [], [])]
    requires s.q == State([], true, Some(h), true, true, 2) && s.delivered == [0]
    requires h.putCtr == HELD && h.no == 1 && h.colNames == Some(b)
    ensures After(s, [Step(0), Step(1)], l)
            == s.(q := s.q.(held := None), threads := [Idle, Idle], delivered := [0, 1, 1])
  {
    TwoSteps(s, Step(0), Step(1), l);
    assert [] + [h] == [h] && Nos([h]) == [1];
    assert Take(s.threads[0], Some(h), l.maxRowsInGet) == (Idle, [1], []);
  }

  // ----- One request at a time

  /** Every thread but k is idle. */
  predicate OnlyBusy(s: Sys, k: nat) {
    k < |s.threads| && forall t :: 0 <= t < |s.threads| && t != k ==> s.threads[t].Idle?
  }

  predicate AllIdle(s: Sys) {
    forall t :: 0 <= t < |s.threads| ==> s.threads[t].Idle?
  }

  /** A request begins only when no other is being served; rows may be put at any time. */
  predicate Served(s: Sys, evs: seq<Event>, l: Limits)
    decreases evs
  {
    evs != [] ==> (evs[0].BeginBatch? || evs[0].BeginDump? ==> AllIdle(s)) && Served(Next(s, evs[0], l), evs[1..], l)
  }

  function PcNos(pc: Pc): seq<nat> {
    match pc
    case AtClear(Some(item)) => [item.no]
    case AtPush(item) => [item.no]
    case _ => []
  }

  /** The numbers of the rows a thread has, in order. */
  function HandNos(th: Thread): seq<nat> {
    match th
    case Idle => []
    case Batching(pc, _, got) => Nos(got) + PcNos(pc)
    case Dumping(pc) => PcNos(pc)
  }

  function HeldNos(s: Sys): seq<nat> { if s.q.held.Some? then [s.q.held.value.no] else [] }

  /** What is still to be delivered, in order, when only th is at work. */
  function Line(s: Sys, th: Thread): seq<nat> {
    HandNos(th) + (if !th.Idle? && th.pc.AtClear? then [] else HeldNos(s)) + Nos(s.q.queue)
  }

  function Iota(n: nat): seq<nat> { seq(n, i => i) }

  /** What the only thread knows of the held row is still so. */
  predicate KnowsHeld(s: Sys, th: Thread) {
    th.Idle?
    || match th.pc
       case AtLook => true
       case AtRead => s.q.held.Some?
       case AtClear(read) => read == s.q.held && read.Some?
       case AtGet => s.q.held == None
       case AtPush(_) => s.q.held == None && th.Batching?
  }

  ghost predicate InLine(s: Sys, k: nat) {
    && OnlyBusy(s, k) && KnowsHeld(s, s.threads[k])
    && |s.delivered| + |Line(s, s.threads[k])| + |s.dropped| == s.q.puts
    && (s.dropped == [] ==> s.delivered + Line(s, s.threads[k]) == Iota(s.q.puts))
  }

  /** What the thread takes comes first in line. */
  lemma TakeInLine(th: Thread, item: Option<Item>, maxRows: int, rest: seq<nat>)
    requires !th.Idle?
    ensures var r, no := Take(th, item, maxRows), if item.Some? then [item.value.no] else [];
            var before := HandNos(WithPc(th, AtLook)) + no + rest;
            && |r.1| + |HandNos(r.0) + rest| + |r.2| == |before|
            && (r.2 == [] ==> r.1 + (HandNos(r.0) + rest) == before)
            && (!r.0.Idle? ==> r.0.pc.AtLook? || (r.0.pc.AtPush? && r.0.Batching?))
  {
    if th.Batching? && item.Some? {
      assert Nos(th.got + [item.value]) == Nos(th.got) + [item.value.no];
      assert Nos([]) == [];
    }
  }

  lemma Joined(a: seq<nat>, b: seq<nat>, c: seq<nat>)
    ensures (a + b) + c == a + (b + c)
  {}

  /** The thread has taken an item out of the line. */
  lemma TakenInLine(s: Sys, s': Sys, k: nat, item: Option<Item>, maxRows: int, rest: seq<nat>)
    requires OnlyBusy(s, k) && !s.threads[k].Idle? && s'.q.puts == s.q.puts && s'.q.held == None
    requires var r := Take(s.threads[k], item, maxRows);
             && s'.threads == s.threads[k := r.0] && s'.delivered == s.delivered + r.1 && s'.dropped == s.dropped + r.2
    requires rest == Nos(s'.q.queue)
    requires Line(s, s.threads[k])
             == HandNos(WithPc(s.threads[k], AtLook)) + (if item.Some? then [item.value.no] else []) + rest
    requires |s.delivered| + |Line(s, s.threads[k])| + |s.dropped| == s.q.puts
    requires s.dropped == [] ==> s.delivered + Line(s, s.threads[k]) == Iota(s.q.puts)
    ensures InLine(s', k)
  {
    var r := Take(s.threads[k], item, maxRows);
    TakeInLine(s.threads[k], item, maxRows, rest);
    LineOf(s', r.0);
    MovedUp(s.delivered, Line(s, s.threads[k]), r.1, HandNos(r.0) + rest, r.2);
  }

  lemma LineOf(s: Sys, th: Thread)
    requires s.q.held == None && (th.Idle? || !th.pc.AtClear?)
    ensures Line(s, th) == HandNos(th) + Nos(s.q.queue)
  {}

  lemma MovedUp(done: seq<nat>, line: seq<nat>, out: seq<nat>, left: seq<nat>, lost: seq<nat>)
    requires |out| + |left| + |lost| == |line| && (lost == [] ==> out + left == line)
    ensures |done + out| + |left| + |lost| == |done| + |line|
    ensures lost == [] ==> (done + out) + left == done + line
  {
    Joined(done, out, left);
  }

  lemma MoveInLine(s: Sys, k: nat, l: Limits)
    requires InLine(s, k) && !s.threads[k].Idle?
    ensures InLine(Move(s, k, l), k)
  {
    match s.threads[k].pc
    case AtLook => LookInLine(s, k, l);
    case AtRead => ReadInLine(s, k, l);
    case AtClear(_) => ClearInLine(s, k, l);
    case AtGet => GetInLine(s, k, l);
    case AtPush(_) => PushInLine(s, k, l);
  }

  lemma LookInLine(s: Sys, k: nat, l: Limits)
    requires InLine(s, k) && !s.threads[k].Idle? && s.threads[k].pc.AtLook?
    ensures InLine(Move(s, k, l), k)
  {
    assert Line(Move(s, k, l), Move(s, k, l).threads[k]) == Line(s, s.threads[k]);
  }

  lemma ClearInLine(s: Sys, k: nat, l: Limits)
    requires InLine(s, k) && !s.threads[k].Idle? && s.threads[k].pc.AtClear?
    ensures InLine(Move(s, k, l), k)
  {
    var th, read := s.threads[k], s.threads[k].pc.read;
    assert Line(s, th) == HandNos(WithPc(th, AtLook)) + [read.value.no] + Nos(s.q.queue);
    TakenInLine(s, Move(s, k, l), k, read, l.maxRowsInGet, Nos(s.q.queue));
  }

  lemma GetInLine(s: Sys, k: nat, l: Limits)
    requires InLine(s, k) && !s.threads[k].Idle? && s.threads[k].pc.AtGet?
    ensures InLine(Move(s, k, l), k)
  {
    var rest := if Got(s).Some? then s.q.queue[1..] else s.q.queue;
    GetLine(s, s.threads[k], rest);
    TakenInLine(s, Move(s, k, l), k, Got(s), l.maxRowsInGet, Nos(rest));
  }

  lemma GetLine(s: Sys, th: Thread, rest: seq<Item>)
    requires !th.Idle? && th.pc.AtGet? && s.q.held == None
    requires rest == if Got(s).Some? then s.q.queue[1..] else s.q.queue
    ensures Line(s, th) == HandNos(WithPc(th, AtLook)) + (if Got(s).Some? then [Got(s).value.no] else []) + Nos(rest)
  {
    LineOf(s, th);
    if Got(s).Some? {
      assert Nos(s.q.queue) == [Got(s).value.no] + Nos(rest);
      Joined(HandNos(th), [Got(s).value.no], Nos(rest));
    }
  }

  lemma ReadInLine(s: Sys, k: nat, l: Limits)
    requires InLine(s, k) && !s.threads[k].Idle? && s.threads[k].pc.AtRead?
    ensures InLine(Move(s, k, l), k)
  {
    var s' := Move(s, k, l);
    assert Line(s', s'.threads[k]) == Line(s, s.threads[k]);
  }

  lemma PushInLine(s: Sys, k: nat, l: Limits)
    requires InLine(s, k) && !s.threads[k].Idle? && s.threads[k].pc.AtPush?
    ensures InLine(Move(s, k, l), k)
  {
    var s', got := Move(s, k, l), Nos(s.threads[k].got);
    assert Line(s, s.threads[k]) == got + Line(s', Idle);
    Joined(s.delivered, got, Line(s', Idle));
  }

  lemma PutInLine(s: Sys, k: nat, colNames: Option<seq<string>>, row: seq<string>, l: Limits)
    requires InLine(s, k)
    ensures InLine(Next(s, PutOne(colNames, row), l), k)
  {
    var s' := Next(s, PutOne(colNames, row), l);
    if s'.q != s.q {
      var item := Item(colNames, row, 0, s.q.puts);
      assert Nos(s.q.queue + [item]) == Nos(s.q.queue) + [s.q.puts];
      assert Line(s', s.threads[k]) == Line(s, s.threads[k]) + [s.q.puts];
      Joined(s.delivered, Line(s, s.threads[k]), [s.q.puts]);
      assert Iota(s.q.puts) + [s.q.puts] == Iota(s.q.puts + 1);
    }
  }

  /** One event of a run in which requests are served one at a time; k' is the thread at work afterwards. */
  lemma StepInLine(s: Sys, k: nat, ev: Event, l: Limits) returns (k': nat)
    requires InLine(s, k) && (ev.BeginBatch? || ev.BeginDump? ==> AllIdle(s))
    ensures InLine(Next(s, ev, l), k') && Clean(s, ev)
  {
    k' := k;
    match ev
    case PutOne(colNames, row) => PutInLine(s, k, colNames, row, l);
    case BeginBatch(t) => if IsIdle(s, t) { k' := t; BeginInLine(s, k, t, Batching(AtLook, [], [])); }
    case BeginDump(t) => if IsIdle(s, t) { k' := t; BeginInLine(s, k, t, Dumping(AtLook)); }
    case Step(t) =>
      if Active(s, t) {
        MoveInLine(s, k, l);
        AloneIsClean(s, k);
      }
    case _ => assert Line(Next(s, ev, l), s.threads[k]) == Line(s, s.threads[k]);
  }

  lemma BeginInLine(s: Sys, k: nat, t: nat, th: Thread)
    requires InLine(s, k) && AllIdle(s) && t < |s.threads| && (th == Batching(AtLook, [], []) || th == Dumping(AtLook))
    ensures InLine(s.(threads := s.threads[t := th]), t)
    ensures InLine(s, t)
  {
    assert Nos([]) == [];
    assert Line(s, th) == Line(s, Idle);
  }

  lemma AloneIsClean(s: Sys, k: nat)
    requires InLine(s, k) && !s.threads[k].Idle?
    ensures Clean(s, Step(k))
  {
    if s.threads[k].pc.AtClear? { assert Claims(s.threads[k], s.q.held.value.no); }
  }

  ghost predicate CleanRun(s: Sys, evs: seq<Event>, l: Limits)
    decreases evs
  {
    evs != [] ==> Clean(s, evs[0]) && CleanRun(Next(s, evs[0], l), evs[1..], l)
  }

  lemma {:induction false} ServedInLine(s: Sys, k: nat, evs: seq<Event>, l: Limits) returns (k': nat)
    requires InLine(s, k) && Served(s, evs, l)
    ensures InLine(After(s, evs, l), k') && CleanRun(s, evs, l)
    decreases evs
  {
    k' := k;
    if evs != [] {
      var k1 := StepInLine(s, k, evs[0], l);
      k' := ServedInLine(Next(s, evs[0], l), k1, evs[1..], l);
    }
  }

  /** When requests are served one at a time, with rows put at any time between their steps: every step is
      clean; and between requests the rows delivered, then the held one, then those in the queue, are the
      accepted ones, in order, if and only if no item without column names was met. */
  lemma OneAtATimeIsLossless(n: nat, evs: seq<Event>, l: Limits)
    requires n > 0 && Served(Start(n), evs, l)
    ensures CleanRun(Start(n), evs, l)
    ensures var t := After(Start(n), evs, l);
            AllIdle(t) ==> (t.delivered + HeldNos(t) + Nos(t.q.queue) == Iota(t.q.puts) <==> t.dropped == [])
  {
    StartInLine(n);
    var k := ServedInLine(Start(n), 0, evs, l);
    if AllIdle(After(Start(n), evs, l)) { IdleInLine(After(Start(n), evs, l), k); }
  }

  lemma StartInLine(n: nat)
    requires n > 0
    ensures InLine(Start(n), 0)
  {
    assert Nos([]) == [] && Iota(0) == [];
  }

  lemma IdleInLine(s: Sys, k: nat)
    requires InLine(s, k) && AllIdle(s)
    ensures s.delivered + HeldNos(s) + Nos(s.q.queue) == Iota(s.q.puts) <==> s.dropped == []
  {
    assert Line(s, Idle) == HeldNos(s) + Nos(s.q.queue);
    Joined(s.delivered, HeldNos(s), Nos(s.q.queue));
  }

  // ----- Rows with column names

  predicate Named(item: Option<Item>) { item.Some? ==> item.value.colNames.Some? }

  ghost predicate AllNamed(s: Sys) {
    && (forall i :: 0 <= i < |s.q.queue| ==> s.q.queue[i].colNames.Some?) && Named(s.q.held)
    && (forall t :: 0 <= t < |s.threads| ==> NamedIn(s.threads[t]))
  }

  predicate NamedIn(th: Thread) {
    th.Idle? || match th.pc
                case AtClear(read) => Named(read)
                case AtPush(item) => item.colNames.Some?
                case _ => true
  }

  lemma NamedTake(th: Thread, item: Option<Item>, maxRows: int)
    requires Named(item)
    ensures Take(th, item, maxRows).2 == [] && NamedIn(Take(th, item, maxRows).0)
  {}

  lemma NamedStep(s: Sys, ev: Event, l: Limits)
    requires AllNamed(s) && (ev.PutOne? ==> ev.colNames.Some?)
    ensures AllNamed(Next(s, ev, l)) && Next(s, ev, l).dropped == s.dropped
  {
    if ev.Step? && Active(s, ev.t) {
      var th := s.threads[ev.t];
      assert NamedIn(th);
      if th.pc.AtClear? { NamedTake(th, th.pc.read, l.maxRowsInGet); }
      if th.pc.AtGet? { NamedTake(th, Got(s), l.maxRowsInGet); }
    }
  }

  /** With rows that have column names, whatever the threads do, none is dropped by a batch. */
  lemma {:induction false} NamedNothingDropped(s: Sys, evs: seq<Event>, l: Limits)
    requires AllNamed(s) && forall i :: 0 <= i < |evs| ==> evs[i].PutOne? ==> evs[i].colNames.Some?
    ensures After(s, evs, l).dropped == s.dropped
    decreases evs
  {
    if evs != [] {
      NamedStep(s, evs[0], l);
      NamedNothingDropped(Next(s, evs[0], l), evs[1..], l);
    }
  }

  /** So rows that have column names are never lost when requests are served one at a time. */
  lemma NamedOneAtATime(n: nat, evs: seq<Event>, l: Limits)
    requires n > 0 && Served(Start(n), evs, l)
    requires forall i :: 0 <= i < |evs| ==> evs[i].PutOne? ==> evs[i].colNames.Some?
    ensures var t := After(Start(n), evs, l);
            AllIdle(t) ==> t.delivered + HeldNos(t) + Nos(t.q.queue) == Iota(t.q.puts)
  {
    NamedNothingDropped(Start(n), evs, l);
    OneAtATimeIsLossless(n, evs, l);
  }
}
